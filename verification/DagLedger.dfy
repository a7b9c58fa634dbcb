/** Results, saga stack, shared outputs, failure and events of a run, each read off its replies alone. */
module DagLedger {
  import opened Seqs
  import opened Graphs
  import opened Kahn
  import opened DagState
  import opened DagInvariants
  import opened DagLog
  import opened DagRuns
  import opened DagCoverage
  import opened DagScripts

  // ── What each reply adds ─────────────────────────────────────────────────

  function ResultOf(a: Action): seq<Result> {
    match a
    case OutputReply(id, output) => [Result(id, Skipped, output)]
    case ExecuteReply(id, status, output) => [Result(id, status, output)]
    case _ => []
  }

  /** The results in the order in which outputs were fetched and executions returned. */
  function ResultsOf(acts: seq<Action>): seq<Result> {
    if acts == [] then [] else ResultsOf(acts[..|acts| - 1]) + ResultOf(acts[|acts| - 1])
  }

  /** The reply behind which a succeeded node's work counts as done. */
  function DoneBy(c: Config, a: Action): seq<Id> {
    match a
    case MarkReply(id) => [id]
    case ExecuteReply(id, status, _) => if status == Success && !c.hasIdempotencyStore then [id] else []
    case _ => []
  }

  function DoneIds(c: Config, acts: seq<Action>): seq<Id> {
    if acts == [] then [] else DoneIds(c, acts[..|acts| - 1]) + DoneBy(c, acts[|acts| - 1])
  }

  function FailedBy(a: Action): seq<Id> {
    if a.ExecuteReply? && a.status == Failed then [a.id] else []
  }

  function FailedIds(acts: seq<Action>): seq<Id> {
    if acts == [] then [] else FailedIds(acts[..|acts| - 1]) + FailedBy(acts[|acts| - 1])
  }

  function SharedBy(shared: seq<Entry>, a: Action): seq<Entry> {
    match a
    case OutputReply(id, output) => SetShared(shared, id, output)
    case ExecuteReply(id, status, output) => if status == Success then SetShared(shared, id, output) else shared
    case _ => shared
  }

  /** Outputs fetched and outputs of successes, set in the order of the replies. */
  function SharedAfter(shared: seq<Entry>, acts: seq<Action>): seq<Entry> {
    if acts == [] then shared else SharedBy(SharedAfter(shared, acts[..|acts| - 1]), acts[|acts| - 1])
  }

  /** What the compensation handlers answered, in order. */
  function Answers(acts: seq<Action>): seq<bool> {
    if acts == [] then []
    else Answers(acts[..|acts| - 1]) + (if acts[|acts| - 1].Compensate? then [acts[|acts| - 1].ok] else [])
  }

  // ── The ledger ───────────────────────────────────────────────────────────

  ghost predicate Ledger(c: Config, s: State, acts: seq<Action>) {
    && s.results == ResultsOf(acts)
    && s.shared == SharedAfter(LoadSaved(c.inherited, c.saved), acts)
    && SagaIds(s.saga) == (if c.enableSaga then DoneIds(c, acts) else [])
    && (s.aborted <==> Timeout in acts)
  }

  /** more: what the step pushed on the saga stack. */
  lemma LedgerSnoc(c: Config, s: State, s1: State, acts: seq<Action>, a: Action, more: seq<SagaEntry>)
    requires Ledger(c, s, acts)
    requires s1.results == s.results + ResultOf(a) && s1.shared == SharedBy(s.shared, a)
    requires s1.saga == s.saga + more && SagaIds(more) == (if c.enableSaga then DoneBy(c, a) else [])
    requires s1.aborted == (s.aborted || a == Timeout)
    ensures Ledger(c, s1, acts + [a])
  {
    Snoc(c, acts, a);
    SagaConcat(s.saga, more);
    hide ResultsOf;
    hide DoneIds;
    hide SharedAfter;
    hide SagaIds;
    hide ResultOf;
    hide SharedBy;
    hide DoneBy;
  }

  lemma SagaConcat(x: seq<SagaEntry>, y: seq<SagaEntry>)
    ensures SagaIds(x + y) == SagaIds(x) + SagaIds(y)
  {
  }

  lemma Snoc(c: Config, acts: seq<Action>, a: Action)
    ensures ResultsOf(acts + [a]) == ResultsOf(acts) + ResultOf(a)
    ensures DoneIds(c, acts + [a]) == DoneIds(c, acts) + DoneBy(c, a)
    ensures FailedIds(acts + [a]) == FailedIds(acts) + FailedBy(a)
    ensures forall shared :: SharedAfter(shared, acts + [a]) == SharedBy(SharedAfter(shared, acts), a)
    ensures Answers(acts + [a]) == Answers(acts) + (if a.Compensate? then [a.ok] else [])
    ensures Timeout in acts + [a] <==> Timeout in acts || a == Timeout
  {
    hide SharedBy;
    assert (acts + [a])[..|acts|] == acts;
  }

  /** What the steps that record nothing leave alone, and how they can set the failure flag. */
  ghost predicate Quiet(s: State, s1: State, timer: bool) {
    && s1.results == s.results && s1.shared == s.shared && s1.saga == s.saga && s1.events == s.events
    && s1.aborted == (s.aborted || timer)
    && (s1.failed != s.failed || s1.failure != s.failure ==>
          !s.failed && s.aborted && s1.failed && s1.failure == TimedOut)
    && !s.mode.Compensating? && !s.mode.Ended? && !s1.mode.Compensating? && !s1.mode.Ended?
  }

  lemma QuietLoop(c: Config, s: State)
    requires s.mode.Deciding? || s.mode.Admitting?
    ensures Quiet(s, LoopStep(c, s), false)
  {
  }

  lemma QuietLease(c: Config, s: State, id: Id, granted: bool)
    requires Suspended(s) && id !in CompletedIds(c)
    ensures Quiet(s, AfterLease(c, s, id, granted), false)
  {
    hide Skip;
  }

  lemma QuietStep(c: Config, s: State, a: Action)
    requires CoreInv(c, s) && Enabled(c, s, a)
    requires !a.OutputReply? && !a.ExecuteReply? && !a.MarkReply? && !a.DrainDone? && !a.Compensate?
    ensures Quiet(s, Apply(c, s, a), a == Timeout)
  {
    if a.LeaseReply? {
      ActiveNotCompleted(c, s, a.id);
    }
    hide CoreInv;
    hide LoopStep;
    hide AfterLease;
    match a
    case LoopTurn => QuietLoop(c, s);
    case LeaseReply(id, granted) => QuietLease(c, s, id, granted);
    case _ =>
  }

  /** Draining and compensating record nothing either. */
  lemma ClosingStep(c: Config, s: State, a: Action)
    requires Enabled(c, s, a) && (a.DrainDone? || a.Compensate?)
    ensures var s1 := Apply(c, s, a);
            && s1.results == s.results && s1.shared == s.shared && s1.saga == s.saga && s1.aborted == s.aborted
            && s1.failed == s.failed && s1.failure == s.failure
  {
  }

  lemma MarkStep(c: Config, s: State, id: Id, output: Output)
    requires Suspended(s)
    ensures var s1 := Finish(c, s, id, output);
            && s1.results == s.results && s1.shared == s.shared && s1.aborted == s.aborted && s1.events == s.events
            && s1.saga == s.saga + (if c.enableSaga then [SagaEntry(id, output)] else [])
            && s1.failed == s.failed && s1.failure == s.failure && s1.mode == s.mode
  {
    hide Relax;
    assert s.saga + [] == s.saga;
  }

  lemma OutputStep(c: Config, s: State, id: Id, output: Output)
    requires Suspended(s)
    ensures var s1 := AfterOutput(c, s, id, output);
            && s1.results == s.results + [Result(id, Skipped, output)] && s1.shared == SetShared(s.shared, id, output)
            && s1.saga == s.saga && s1.aborted == s.aborted && s1.events == s.events
            && s1.failed == s.failed && s1.failure == s.failure && s1.mode == s.mode
  {
    hide Relax;
    hide SetShared;
  }

  /** What an execution's reply changes. */
  lemma ExecuteStep(c: Config, s: State, id: Id, status: Status, output: Output)
    requires Suspended(s) && status != Skipped
    ensures var s1 := AfterExecute(c, s, id, status, output);
            && s1.results == s.results + [Result(id, status, output)]
            && s1.shared == (if status == Success then SetShared(s.shared, id, output) else s.shared)
            && s1.saga == s.saga + (if status == Success && !c.hasIdempotencyStore && c.enableSaga
                                    then [SagaEntry(id, output)] else [])
            && s1.aborted == s.aborted && s1.mode == s.mode
            && s1.events == s.events + (if status == Failed then [DlqEntry(id)] else [])
            && s1.failed == (s.failed || status == Failed)
            && s1.failure == (if status == Failed then NodeFailure(id) else s.failure)
  {
    hide SetShared;
    hide Finish;
    assert s.saga + [] == s.saga && s.events + [] == s.events;
    var s2 := s.(results := s.results + [Result(id, status, output)], shared := SetShared(s.shared, id, output));
    MarkStep(c, s2, id, output);
  }

  lemma LedgerExecute(c: Config, s: State, acts: seq<Action>, id: Id, status: Status, output: Output)
    requires Ledger(c, s, acts) && status != Skipped && Suspended(s)
    ensures Ledger(c, AfterExecute(c, s, id, status, output), acts + [ExecuteReply(id, status, output)])
  {
    hide Ledger;
    ExecuteStep(c, s, id, status, output);
    hide AfterExecute;
    hide SetShared;
    var more := if status == Success && !c.hasIdempotencyStore && c.enableSaga then [SagaEntry(id, output)] else [];
    LedgerSnoc(c, s, AfterExecute(c, s, id, status, output), acts, ExecuteReply(id, status, output), more);
  }

  lemma LedgerMark(c: Config, s: State, acts: seq<Action>, id: Id, output: Output)
    requires Ledger(c, s, acts) && Suspended(s)
    ensures Ledger(c, Finish(c, s, id, output), acts + [MarkReply(id)])
  {
    hide Ledger;
    MarkStep(c, s, id, output);
    hide Finish;
    assert s.results + [] == s.results;
    LedgerSnoc(c, s, Finish(c, s, id, output), acts, MarkReply(id),
               if c.enableSaga then [SagaEntry(id, output)] else []);
  }

  lemma LedgerStep(c: Config, s: State, acts: seq<Action>, a: Action)
    requires Ledger(c, s, acts) && CoreInv(c, s) && Enabled(c, s, a)
    ensures Ledger(c, Apply(c, s, a), acts + [a])
  {
    hide Ledger;
    hide CoreInv;
    hide AfterExecute;
    hide AfterOutput;
    hide Finish;
    hide SetShared;
    assert s.saga + [] == s.saga && s.results + [] == s.results;
    match a
    case OutputReply(id, output) =>
      OutputStep(c, s, id, output);
      LedgerSnoc(c, s, Apply(c, s, a), acts, a, []);
    case ExecuteReply(id, status, output) => LedgerExecute(c, s, acts, id, status, output);
    case MarkReply(id) => LedgerMark(c, s, acts, id, s.active[id].output);
    case _ =>
      if a.DrainDone? || a.Compensate? {
        ClosingStep(c, s, a);
      } else {
        QuietStep(c, s, a);
      }
      hide Apply;
      LedgerSnoc(c, s, Apply(c, s, a), acts, a, []);
  }

  lemma LedgerInit(c: Config)
    ensures Ledger(c, Init(c), [])
  {
  }

  // ── What is recorded for a node ──────────────────────────────────────────

  lemma {:induction false} ResultMembers(acts: seq<Action>, r: Result)
    ensures r in ResultsOf(acts) <==>
              || (r.status == Skipped && OutputReply(r.id, r.output) in acts)
              || ExecuteReply(r.id, r.status, r.output) in acts
  {
    if acts != [] {
      var n := |acts| - 1;
      ResultMembers(acts[..n], r);
      assert acts == acts[..n] + [acts[n]];
    }
  }

  /**
   * A node is recorded as skipped with an output exactly when its probe hit and that output was fetched,
   * and with any other status exactly when an execution returned that status and output.
   */
  lemma RecordedIff(c: Config, acts: seq<Action>, states: seq<State>, r: Result)
    requires WellFormed(c) && IsRun(c, acts, states)
    ensures r in states[|acts|].results <==>
              if r.status == Skipped then ProbeReply(r.id, true) in acts && OutputReply(r.id, r.output) in acts
              else ExecuteReply(r.id, r.status, r.output) in acts
  {
    RunShape(c, acts, states);
    assert acts[..|acts|] == acts;
    hide *;
    BookInvariant(c, acts, states, |acts|);
    NodeSpeaksInOrder(c, acts, states, |acts|, r.id);
    RecordedByReplies(c, states[|acts|], acts, r);
  }

  lemma RecordedByReplies(c: Config, s: State, acts: seq<Action>, r: Result)
    requires Book(c, s, acts) && SpeaksInOrder(c, Word(acts, r.id), r.id)
    ensures r in s.results <==>
              if r.status == Skipped then ProbeReply(r.id, true) in acts && OutputReply(r.id, r.output) in acts
              else ExecuteReply(r.id, r.status, r.output) in acts
  {
    assert s.results == ResultsOf(acts);
    hide Book;
    ResultMembers(acts, r);
    ScriptProbes(c, Word(acts, r.id), r.id);
    WordMembers(acts, r.id, ExecuteReply(r.id, r.status, r.output));
    WordMembers(acts, r.id, OutputReply(r.id, r.output));
    WordMembers(acts, r.id, ProbeReply(r.id, true));
    hide ResultsOf;
    hide Word;
    hide SpeaksInOrder;
  }

  // ── The events ───────────────────────────────────────────────────────────

  function DeadLetters(ids: seq<Id>): (events: seq<Event>)
    ensures |events| == |ids| && forall i :: 0 <= i < |ids| ==> events[i] == DlqEntry(ids[i])
  {
    seq(|ids|, i requires 0 <= i < |ids| => DlqEntry(ids[i]))
  }

  /** Each node announced, and confirmed when its handler answered without an error. */
  function RollbackEvents(ids: seq<Id>, oks: seq<bool>): seq<Event>
    requires |ids| == |oks|
  {
    if ids == [] then []
    else
      var n := |ids| - 1;
      RollbackEvents(ids[..n], oks[..n]) + CompensationEvents(ids[n], oks[n])
  }

  function Closing(s: State): Event {
    if s.failed then ExecutionFailed(s.failure) else ExecutionCompleted
  }

  /** Whom a rollback visits: everyone done, if the run failed with the saga on. */
  function Undone(c: Config, failed: bool, done: seq<Id>): seq<Id> {
    if failed && c.enableSaga then done else []
  }

  /** A dead letter per failure, then the rollback, last done first, as its handlers answered. */
  function Story(failed: seq<Id>, undone: seq<Id>, answers: seq<bool>): seq<Event>
    requires |undone| <= |answers|
  {
    DeadLetters(failed)
    + if undone == [] then []
      else [SagaCompensating(|undone|)] + RollbackEvents(Reverse(undone), answers[..|undone|])
  }

  /** The failure reported is the last node's to fail, or the timeout when none did. */
  ghost predicate FailureInv(s: State, acts: seq<Action>) {
    var failed := FailedIds(acts);
    && (failed != [] ==> s.failed && s.failure == NodeFailure(failed[|failed| - 1]))
    && (s.failed && failed == [] ==> s.failure == TimedOut && s.aborted)
  }

  ghost predicate Undoing(c: Config, s: State, acts: seq<Action>, left: nat) {
    var undone, answers := SagaIds(s.saga), Answers(acts);
    && s.failed && c.enableSaga && undone != [] && left <= |undone| && |answers| == |undone| - left
    && s.events == DeadLetters(FailedIds(acts)) + [SagaCompensating(|undone|)]
                   + RollbackEvents(Reverse(undone)[..|undone| - left], answers)
  }

  ghost predicate Over(c: Config, s: State, acts: seq<Action>) {
    var undone, answers := Undone(c, s.failed, SagaIds(s.saga)), Answers(acts);
    && |answers| == (if undone == [] then 0 else |undone| + 1)
    && s.events == Story(FailedIds(acts), undone, answers) + [Closing(s)]
  }

  ghost predicate StillOpen(s: State, acts: seq<Action>) {
    Answers(acts) == [] && s.events == DeadLetters(FailedIds(acts))
  }

  ghost predicate EventsInv(c: Config, s: State, acts: seq<Action>) {
    match s.mode
    case Compensating(left) => Undoing(c, s, acts, left)
    case Ended => Over(c, s, acts)
    case _ => StillOpen(s, acts)
  }

  /** A step that fails no node: the flag stays, or the timeout sets it. */
  lemma FailureQuiet(s: State, s1: State, acts: seq<Action>, c: Config, a: Action)
    requires FailureInv(s, acts) && FailedBy(a) == [] && (s.aborted ==> s1.aborted)
    requires s1.failed != s.failed || s1.failure != s.failure ==>
               !s.failed && s.aborted && s1.failed && s1.failure == TimedOut
    ensures FailureInv(s1, acts + [a])
  {
    Snoc(c, acts, a);
    assert FailedIds(acts) + [] == FailedIds(acts);
    hide FailedIds;
  }

  lemma FailureExecute(c: Config, s: State, acts: seq<Action>, id: Id, status: Status, output: Output)
    requires FailureInv(s, acts) && Suspended(s) && status != Skipped
    ensures FailureInv(AfterExecute(c, s, id, status, output), acts + [ExecuteReply(id, status, output)])
  {
    Snoc(c, acts, ExecuteReply(id, status, output));
    ExecuteStep(c, s, id, status, output);
    assert FailedIds(acts) + [] == FailedIds(acts);
    hide FailedIds;
    hide AfterExecute;
    hide SetShared;
  }

  lemma FailureStep(c: Config, s: State, acts: seq<Action>, a: Action)
    requires FailureInv(s, acts) && CoreInv(c, s) && Enabled(c, s, a)
    ensures FailureInv(Apply(c, s, a), acts + [a])
  {
    hide FailureInv;
    hide CoreInv;
    hide AfterExecute;
    hide AfterOutput;
    hide Finish;
    match a
    case ExecuteReply(id, status, output) => FailureExecute(c, s, acts, id, status, output);
    case OutputReply(id, output) =>
      OutputStep(c, s, id, output);
      FailureQuiet(s, Apply(c, s, a), acts, c, a);
    case MarkReply(id) =>
      MarkStep(c, s, id, s.active[id].output);
      FailureQuiet(s, Apply(c, s, a), acts, c, a);
    case _ =>
      if a.DrainDone? || a.Compensate? {
        ClosingStep(c, s, a);
      } else {
        QuietStep(c, s, a);
      }
      hide Apply;
      FailureQuiet(s, Apply(c, s, a), acts, c, a);
  }

  lemma LettersConcat(x: seq<Id>, y: seq<Id>)
    ensures DeadLetters(x + y) == DeadLetters(x) + DeadLetters(y)
  {
  }

  /** Outside the closing phases only the dead letters have been emitted. */
  lemma OpenGoesOn(s: State, s1: State, acts: seq<Action>, c: Config, a: Action)
    requires StillOpen(s, acts) && !a.Compensate? && s1.events == s.events + DeadLetters(FailedBy(a))
    ensures StillOpen(s1, acts + [a])
  {
    Snoc(c, acts, a);
    LettersConcat(FailedIds(acts), FailedBy(a));
    assert Answers(acts) + [] == Answers(acts);
    hide FailedIds;
    hide Answers;
    hide DeadLetters;
    hide FailedBy;
  }

  /** The drain is over and nothing is to be undone. */
  lemma OpenEnds(c: Config, s: State, acts: seq<Action>)
    requires StillOpen(s, acts) && Undone(c, s.failed, SagaIds(s.saga)) == []
    ensures Over(c, End(s), acts + [DrainDone])
  {
    Snoc(c, acts, DrainDone);
    assert Answers(acts) + [] == Answers(acts) && FailedIds(acts) + [] == FailedIds(acts);
    hide FailedIds;
    hide Answers;
    hide DeadLetters;
    hide Undone;
    hide SagaIds;
    assert s.events + [] == s.events;
  }

  lemma UndoingStarts(c: Config, s: State, acts: seq<Action>)
    requires StillOpen(s, acts) && s.failed && c.enableSaga && s.saga != []
    ensures Undoing(c, AfterDrain(c, s), acts + [DrainDone], |s.saga|)
  {
    Snoc(c, acts, DrainDone);
    assert Answers(acts) + [] == Answers(acts) && FailedIds(acts) + [] == FailedIds(acts);
    var undone := SagaIds(s.saga);
    assert |undone| == |s.saga| && |Reverse(undone)| == |undone|;
    hide FailedIds;
    hide Answers;
    hide DeadLetters;
    hide SagaIds;
    hide Reverse;
    assert Reverse(undone)[..0] == [];
    var before := DeadLetters(FailedIds(acts)) + [SagaCompensating(|undone|)];
    assert before + [] == before;
  }

  lemma RollbackSnoc(ids: seq<Id>, oks: seq<bool>, id: Id, ok: bool)
    requires |ids| == |oks|
    ensures RollbackEvents(ids + [id], oks + [ok]) == RollbackEvents(ids, oks) + CompensationEvents(id, ok)
  {
    assert (ids + [id])[..|ids|] == ids && (oks + [ok])[..|oks|] == oks;
  }

  /** The last compensation reply closes the run. */
  lemma UndoingEnds(c: Config, s: State, acts: seq<Action>, ok: bool)
    requires Undoing(c, s, acts, 0)
    ensures Over(c, End(s), acts + [Compensate(ok)])
  {
    Snoc(c, acts, Compensate(ok));
    assert FailedIds(acts) + [] == FailedIds(acts);
    var undone, answers := Undone(c, s.failed, SagaIds(s.saga)), Answers(acts);
    assert |Reverse(undone)| == |undone|;
    hide FailedIds;
    hide Answers;
    hide DeadLetters;
    hide RollbackEvents;
    hide Reverse;
    hide SagaIds;
    hide Undone;
    assert Reverse(undone)[..|undone|] == Reverse(undone) && (answers + [ok])[..|undone|] == answers;
    Assoc(DeadLetters(FailedIds(acts)), [SagaCompensating(|undone|)], RollbackEvents(Reverse(undone), answers));
  }

  lemma UndoOne(before: seq<Event>, ids: seq<Id>, n: nat, answers: seq<bool>, ok: bool)
    requires 1 <= n <= |ids| && |answers| == |ids| - n
    ensures |Reverse(ids)| == |ids|
    ensures before + RollbackEvents(Reverse(ids)[..|ids| - n], answers) + CompensationEvents(ids[n - 1], ok)
         == before + RollbackEvents(Reverse(ids)[..|ids| - (n - 1)], answers + [ok])
  {
    assert |Reverse(ids)| == |ids|;
    hide *;
    ReverseTake(ids, n);
    var done := Reverse(ids)[..|ids| - n];
    RollbackSnoc(done, answers, ids[n - 1], ok);
    Assoc(before, RollbackEvents(done, answers), CompensationEvents(ids[n - 1], ok));
  }

  lemma UndoingGoesOn(c: Config, s: State, s1: State, acts: seq<Action>, left: nat, ok: bool)
    requires Undoing(c, s, acts, left) && 0 < left && s1.saga == s.saga && s1.failed == s.failed
    requires s1.events == s.events + CompensationEvents(SagaIds(s.saga)[left - 1], ok)
    ensures Undoing(c, s1, acts + [Compensate(ok)], left - 1)
  {
    Snoc(c, acts, Compensate(ok));
    assert FailedIds(acts) + [] == FailedIds(acts);
    var ids := SagaIds(s.saga);
    hide SagaIds;
    hide Reverse;
    hide FailedIds;
    hide Answers;
    hide DeadLetters;
    hide RollbackEvents;
    hide CompensationEvents;
    UndoOne(DeadLetters(FailedIds(acts)) + [SagaCompensating(|ids|)], ids, left, Answers(acts), ok);
  }

  lemma CompensateKeeps(c: Config, s: State, acts: seq<Action>, ok: bool)
    requires s.mode.Compensating? && s.mode.left <= |s.saga| && Undoing(c, s, acts, s.mode.left)
    ensures EventsInv(c, AfterCompensate(s, ok), acts + [Compensate(ok)])
  {
    var n := s.mode.left;
    if n == 0 {
      LastUndo(s, ok);
      hide AfterCompensate;
      UndoingEnds(c, s, acts, ok);
    } else {
      UndoAdds(s, ok);
      assert SagaIds(s.saga)[n - 1] == s.saga[n - 1].id;
      hide AfterCompensate;
      hide Undoing;
      hide CompensationEvents;
      hide SagaIds;
      UndoingGoesOn(c, s, AfterCompensate(s, ok), acts, n, ok);
    }
  }

  lemma DrainKeeps(c: Config, s: State, acts: seq<Action>)
    requires StillOpen(s, acts)
    ensures EventsInv(c, AfterDrain(c, s), acts + [DrainDone])
  {
    assert s.saga == [] ==> SagaIds(s.saga) == [];
    hide StillOpen;
    hide Over;
    hide Undoing;
    hide SagaIds;
    if s.failed && c.enableSaga && s.saga != [] {
      UndoingStarts(c, s, acts);
    } else {
      OpenEnds(c, s, acts);
    }
  }

  lemma UndoAdds(s: State, ok: bool)
    requires s.mode.Compensating? && 0 < s.mode.left <= |s.saga|
    ensures AfterCompensate(s, ok) == s.(mode := Compensating(s.mode.left - 1),
                                        events := s.events + CompensationEvents(s.saga[s.mode.left - 1].id, ok))
  {
  }

  lemma EventsStep(c: Config, s: State, acts: seq<Action>, a: Action)
    requires EventsInv(c, s, acts) && CoreInv(c, s) && Enabled(c, s, a)
    ensures EventsInv(c, Apply(c, s, a), acts + [a])
  {
    hide Over;
    hide Undoing;
    hide StillOpen;
    hide CoreInv;
    hide AfterExecute;
    hide AfterOutput;
    hide Finish;
    hide AfterDrain;
    hide AfterCompensate;
    match a
    case ExecuteReply(id, status, output) =>
      ExecuteStep(c, s, id, status, output);
      OpenGoesOn(s, Apply(c, s, a), acts, c, a);
    case OutputReply(id, output) =>
      OutputStep(c, s, id, output);
      OpenGoesOn(s, Apply(c, s, a), acts, c, a);
    case MarkReply(id) =>
      MarkStep(c, s, id, s.active[id].output);
      OpenGoesOn(s, Apply(c, s, a), acts, c, a);
    case DrainDone => DrainKeeps(c, s, acts);
    case Compensate(ok) => CompensateKeeps(c, s, acts, ok);
    case _ =>
      QuietStep(c, s, a);
      hide Apply;
      OpenGoesOn(s, Apply(c, s, a), acts, c, a);
  }

  lemma LastUndo(s: State, ok: bool)
    requires s.mode == Compensating(0)
    ensures AfterCompensate(s, ok) == End(s)
  {
  }

  lemma EventsInit(c: Config)
    ensures EventsInv(c, Init(c), []) && FailureInv(Init(c), [])
  {
  }

  ghost predicate Book(c: Config, s: State, acts: seq<Action>) {
    RunInv(c, s) && Ledger(c, s, acts) && EventsInv(c, s, acts) && FailureInv(s, acts)
  }

  lemma BookSnoc(c: Config, s: State, acts: seq<Action>, a: Action)
    requires Book(c, s, acts) && Enabled(c, s, a)
    ensures Book(c, Apply(c, s, a), acts + [a])
  {
    assert RunInv(c, s) && Ledger(c, s, acts) && EventsInv(c, s, acts) && FailureInv(s, acts);
    hide RunInv;
    hide Ledger;
    hide EventsInv;
    hide FailureInv;
    hide CoreInv;
    hide LogInv;
    hide Apply;
    hide Enabled;
    RunParts(c, s);
    RunStep(c, s, a);
    LedgerStep(c, s, acts, a);
    EventsStep(c, s, acts, a);
    FailureStep(c, s, acts, a);
  }

  lemma BookStep(c: Config, acts: seq<Action>, states: seq<State>, i: nat)
    requires IsRun(c, acts, states) && i < |acts| && Book(c, states[i], acts[..i])
    ensures |states| == |acts| + 1 && Book(c, states[i + 1], acts[..i + 1])
  {
    RunShape(c, acts, states);
    hide *;
    StepOf(c, acts, states, i);
    BookSnoc(c, states[i], acts[..i], acts[i]);
  }

  lemma BookInit(c: Config)
    requires WellFormed(c)
    ensures Book(c, Init(c), [])
  {
    RunInit(c);
    LedgerInit(c);
    EventsInit(c);
    hide RunInv;
    hide Ledger;
    hide EventsInv;
    hide FailureInv;
    hide Init;
  }

  /**
   * In every state of every run the results, shared outputs, saga stack, failure and events are those of
   * the replies so far.
   */
  lemma {:induction false} BookInvariant(c: Config, acts: seq<Action>, states: seq<State>, i: nat)
    requires WellFormed(c) && IsRun(c, acts, states) && i < |states|
    ensures Book(c, states[i], acts[..i])
  {
    hide *;
    RunShape(c, acts, states);
    if i == 0 {
      assert acts[..0] == [];
      BookInit(c);
    } else {
      BookInvariant(c, acts, states, i - 1);
      BookStep(c, acts, states, i - 1);
    }
  }

  /**
   * All a finished run ever emitted: a dead letter per failure in order; if it failed with the saga on
   * and something done, the announcement and every entry's events, last done first, as its handler
   * answered; and one closing event, which names the last node to fail, or the timeout when none did.
   */
  lemma EventsExactly(c: Config, acts: seq<Action>, states: seq<State>, i: nat)
    requires WellFormed(c) && IsRun(c, acts, states) && i < |states| && states[i].mode.Ended?
    ensures var s, failed, answers := states[i], FailedIds(acts[..i]), Answers(acts[..i]);
            var undone := Undone(c, s.failed, DoneIds(c, acts[..i]));
            && (failed != [] ==> s.failed) && (s.failed && failed == [] ==> Timeout in acts[..i])
            && |answers| == (if undone == [] then 0 else |undone| + 1)
            && s.events == Story(failed, undone, answers) + [ClosingOf(s.failed, failed)]
  {
    RunShape(c, acts, states);
    hide *;
    BookInvariant(c, acts, states, i);
    BookAtEnd(c, states[i], acts[..i]);
  }

  function ClosingOf(failed: bool, failures: seq<Id>): Event {
    if !failed then ExecutionCompleted
    else ExecutionFailed(if failures == [] then TimedOut else NodeFailure(failures[|failures| - 1]))
  }

  lemma BookAtEnd(c: Config, s: State, acts: seq<Action>)
    requires Book(c, s, acts) && s.mode.Ended?
    ensures var failed, answers := FailedIds(acts), Answers(acts);
            var undone := Undone(c, s.failed, DoneIds(c, acts));
            && (failed != [] ==> s.failed) && (s.failed && failed == [] ==> Timeout in acts)
            && |answers| == (if undone == [] then 0 else |undone| + 1)
            && s.events == Story(failed, undone, answers) + [ClosingOf(s.failed, failed)]
  {
    assert Over(c, s, acts);
    assert Undone(c, s.failed, SagaIds(s.saga)) == Undone(c, s.failed, DoneIds(c, acts)) by {
      hide SagaIds;
      hide DoneIds;
      hide RunInv;
    }
    hide RunInv;
    hide EventsInv;
    assert Closing(s) == ClosingOf(s.failed, FailedIds(acts)) && (FailedIds(acts) != [] ==> s.failed)
           && (s.failed && FailedIds(acts) == [] ==> Timeout in acts) by {
      hide FailedIds;
      hide Over;
    }
    hide Book;
    hide Undone;
    hide Story;
    hide FailedIds;
    hide Answers;
    hide Closing;
    hide ClosingOf;
  }
}
