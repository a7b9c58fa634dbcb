/** What every step keeps about results, the saga stack and the shared outputs. */
module DagLog {
  import opened Seqs
  import opened Graphs
  import opened Kahn
  import opened DagState
  import opened DagInvariants

  ghost predicate OneResultEach(rs: seq<Result>) {
    forall i, j :: 0 <= i < j < |rs| ==> rs[i].id != rs[j].id
  }

  ghost function ResultIds(rs: seq<Result>): set<Id> {
    set r | r in rs :: r.id
  }

  ghost function Succeeded(rs: seq<Result>): set<Id> {
    set r | r in rs && r.status == Success :: r.id
  }

  /** Ids whose result lets their edges be unlocked. */
  ghost function Cleared(rs: seq<Result>): set<Id> {
    set r | r in rs && (r.status == Success || r.status == Skipped) :: r.id
  }

  ghost predicate NotYetRun(p: Phase) {
    p.Acquiring? || p.Probing? || p.Fetching? || p.Executing?
  }

  ghost predicate ResultInv(s: State) {
    && OneResultEach(s.results)
    && ResultIds(s.results) <= SetOf(s.q.taken)
    && (forall id :: id in s.active && NotYetRun(s.active[id]) ==> id !in ResultIds(s.results))
    && (forall id :: id in s.active && s.active[id].Marking? ==> Result(id, Success, s.active[id].output) in s.results)
    && SetOf(s.q.unlocked) <= Cleared(s.results)
  }

  ghost predicate IsMarking(s: State, id: Id) {
    id in s.active && s.active[id].Marking?
  }

  ghost function SagaIds(saga: seq<SagaEntry>): seq<Id> {
    seq(|saga|, i requires 0 <= i < |saga| => saga[i].id)
  }

  /** Every succeeded predecessor of a saga entry sits below it. */
  ghost predicate SagaOrdered(edges: seq<Edge>, saga: seq<SagaEntry>, succeeded: set<Id>) {
    forall j, e :: 0 <= j < |saga| && e in edges && e.target == saga[j].id && e.source in succeeded
      ==> e.source in SagaIds(saga[..j])
  }

  ghost predicate SagaInv(c: Config, s: State) {
    if !c.enableSaga then s.saga == []
    else
      && (forall id :: id in SagaIds(s.saga) <==> id in Succeeded(s.results) && !IsMarking(s, id))
      && NoDup(SagaIds(s.saga))
      && (forall x :: x in s.saga ==> Result(x.id, Success, x.output) in s.results)
      && SagaOrdered(c.graph.edges, s.saga, Succeeded(s.results))
  }

  ghost predicate DistinctKeys(shared: seq<Entry>) {
    forall i, j :: 0 <= i < j < |shared| ==> shared[i].id != shared[j].id
  }

  ghost predicate SharedInv(s: State) {
    && DistinctKeys(s.shared)
    && forall r :: r in s.results && (r.status == Success || r.status == Skipped) ==> Entry(r.id, r.output) in s.shared
  }

  ghost predicate LogInv(c: Config, s: State) {
    ResultInv(s) && SagaInv(c, s) && SharedInv(s)
  }

  // ── Shared state ─────────────────────────────────────────────────────────

  /** An id that has an output already keeps its place. */
  lemma {:induction false} SetSharedAt(shared: seq<Entry>, id: Id, output: Output, k: nat)
    requires DistinctKeys(shared) && k < |shared| && shared[k].id == id
    ensures SetShared(shared, id, output) == shared[k := Entry(id, output)]
    decreases |shared|
  {
    var n := |shared| - 1;
    if k < n {
      SetSharedAt(shared[..n], id, output, k);
      assert shared[k := Entry(id, output)] == shared[..n][k := Entry(id, output)] + [shared[n]];
    }
  }

  /** A new one goes to the end. */
  lemma SetSharedNew(shared: seq<Entry>, id: Id, output: Output)
    requires forall i :: 0 <= i < |shared| ==> shared[i].id != id
    ensures SetShared(shared, id, output) == shared + [Entry(id, output)]
  {
  }

  lemma SetSharedSpec(shared: seq<Entry>, id: Id, output: Output)
    requires DistinctKeys(shared)
    ensures var after := SetShared(shared, id, output);
            && DistinctKeys(after)
            && Entry(id, output) in after
            && (forall e: Entry :: e.id != id ==> (e in after <==> e in shared))
  {
    hide SetShared;
    if forall i :: 0 <= i < |shared| ==> shared[i].id != id {
      SetSharedNew(shared, id, output);
    } else {
      var k :| 0 <= k < |shared| && shared[k].id == id;
      SetSharedAt(shared, id, output, k);
      PutAt(shared, k, Entry(id, output));
    }
  }

  lemma PutAt(shared: seq<Entry>, k: nat, x: Entry)
    requires DistinctKeys(shared) && k < |shared| && shared[k].id == x.id
    ensures var after := shared[k := x];
            && DistinctKeys(after) && x in after
            && (forall e: Entry :: e.id != x.id ==> (e in after <==> e in shared))
  {
    var after := shared[k := x];
    assert after[k] == x;
    forall e: Entry | e.id != x.id ensures e in after <==> e in shared {
      if e in shared {
        var i :| 0 <= i < |shared| && shared[i] == e;
        assert after[i] == e;
      }
    }
  }

  lemma {:induction false} LoadSavedDistinct(shared: seq<Entry>, saved: seq<Entry>)
    requires DistinctKeys(shared)
    ensures DistinctKeys(LoadSaved(shared, saved))
  {
    if saved != [] {
      var n := |saved| - 1;
      LoadSavedDistinct(shared, saved[..n]);
      SetSharedSpec(LoadSaved(shared, saved[..n]), saved[n].id, saved[n].output);
    }
  }

  // ── Recording a result ───────────────────────────────────────────────────

  lemma PushResult(rs: seq<Result>, r: Result)
    ensures ResultIds(rs + [r]) == ResultIds(rs) + {r.id}
    ensures Succeeded(rs + [r]) == Succeeded(rs) + (if r.status == Success then {r.id} else {})
    ensures Cleared(rs + [r]) == Cleared(rs) + (if r.status == Success || r.status == Skipped then {r.id} else {})
    ensures OneResultEach(rs) && r.id !in ResultIds(rs) ==> OneResultEach(rs + [r])
  {
    forall x ensures x in rs + [r] <==> x in rs || x == r {
    }
  }

  /** The node's new result, then its new phase: what the pair must satisfy. */
  lemma ResultPush(s: State, id: Id, status: Status, output: Output, p: Phase)
    requires ResultInv(s) && id in s.active && NotYetRun(s.active[id]) && id in s.q.taken
    requires p.Releasing? || (p == Marking(output) && status == Success)
    ensures ResultInv(s.(results := s.results + [Result(id, status, output)], active := s.active[id := p]))
  {
    PushResult(s.results, Result(id, status, output));
    assert id in SetOf(s.q.taken);
  }

  lemma ResultPhase(s: State, id: Id, p: Phase)
    requires ResultInv(s) && id in s.active
    requires NotYetRun(p) ==> NotYetRun(s.active[id])
    requires !p.Marking?
    ensures ResultInv(s.(active := s.active[id := p]))
  {
  }

  lemma ResultUnlock(c: Config, s: State, id: Id)
    requires ResultInv(s) && id in Cleared(s.results)
    ensures ResultInv(UnlockDownstream(c, s, id))
  {
    hide Relax;
    if !s.failed {
      assert SetOf(s.q.unlocked + [id]) == SetOf(s.q.unlocked) + {id};
    }
  }

  lemma ResultTake(s: State, s1: State)
    requires ResultInv(s) && s1.results == s.results && s1.active == s.active
    requires SetOf(s.q.taken) <= SetOf(s1.q.taken) && s1.q.unlocked == s.q.unlocked
    ensures ResultInv(s1)
  {
  }

  // ── The saga stack ───────────────────────────────────────────────────────

  lemma SagaIdsAppend(saga: seq<SagaEntry>, x: SagaEntry)
    ensures SagaIds(saga + [x]) == SagaIds(saga) + [x.id]
  {
  }

  lemma SagaOrderedAppend(edges: seq<Edge>, saga: seq<SagaEntry>, succeeded: set<Id>, x: SagaEntry)
    requires SagaOrdered(edges, saga, succeeded)
    requires forall e :: e in edges && e.target == x.id && e.source in succeeded ==> e.source in SagaIds(saga)
    ensures SagaOrdered(edges, saga + [x], succeeded)
  {
    var more := saga + [x];
    forall j, e | 0 <= j < |more| && e in edges && e.target == more[j].id && e.source in succeeded
      ensures e.source in SagaIds(more[..j]) {
      assert more[..j] == saga[..j];
      assert saga[..|saga|] == saga;
    }
  }

  /** A new success cannot be the source of an edge into an entry already on the stack. */
  lemma SagaOrderedGrow(c: Config, s: State, id: Id)
    requires CoreInv(c, s) && ResultInv(s) && SagaInv(c, s) && c.enableSaga && id !in ResultIds(s.results)
    ensures SagaOrdered(c.graph.edges, s.saga, Succeeded(s.results) + {id})
  {
    forall j, e | 0 <= j < |s.saga| && e in c.graph.edges && e.target == s.saga[j].id
      ensures e.source in ResultIds(s.results) {
      var x := s.saga[j];
      assert x in s.saga;
      assert x.id in ResultIds(s.results);
      assert x.id in SetOf(s.q.taken);
      TakenPredecessors(c.graph, s.q, e);
      assert e.source in SetOf(s.q.unlocked);
    }
  }

  /** A success recorded but not yet marked: the stack is unchanged. */
  lemma SagaMark(c: Config, s: State, id: Id, output: Output)
    requires CoreInv(c, s) && ResultInv(s) && SagaInv(c, s)
    requires id in s.active && NotYetRun(s.active[id])
    ensures SagaInv(c, s.(results := s.results + [Result(id, Success, output)],
                          active := s.active[id := Marking(output)]))
  {
    hide CoreInv;
    if c.enableSaga {
      var r := Result(id, Success, output);
      PushResult(s.results, r);
      SagaOrderedGrow(c, s, id);
      hide SagaOrdered;
      assert id !in Succeeded(s.results) by {
        assert Succeeded(s.results) <= ResultIds(s.results);
      }
    }
  }

  lemma SagaPushReady(c: Config, s: State, id: Id)
    requires CoreInv(c, s) && ResultInv(s) && SagaInv(c, s) && c.enableSaga && IsMarking(s, id)
    ensures forall e :: e in c.graph.edges && e.target == id && e.source in Succeeded(s.results) ==>
              e.source in SagaIds(s.saga)
  {
    forall e | e in c.graph.edges && e.target == id && e.source in Succeeded(s.results)
      ensures e.source in SagaIds(s.saga) {
      assert id in SetOf(s.q.taken);
      TakenPredecessors(c.graph, s.q, e);
      assert !IsMarking(s, e.source);
    }
  }

  /** The marked node's entry goes on top. */
  lemma SagaPush(c: Config, s: State, id: Id)
    requires CoreInv(c, s) && ResultInv(s) && SagaInv(c, s) && c.enableSaga && IsMarking(s, id)
    ensures SagaInv(c, s.(saga := s.saga + [SagaEntry(id, s.active[id].output)], active := s.active[id := Releasing]))
  {
    hide CoreInv;
    var x := SagaEntry(id, s.active[id].output);
    SagaPushReady(c, s, id);
    SagaOrderedAppend(c.graph.edges, s.saga, Succeeded(s.results), x);
    SagaIdsAppend(s.saga, x);
    hide SagaOrdered;
    hide SagaIds;
    assert id !in SagaIds(s.saga);
    assert Result(id, Success, x.output) in s.results;
  }

  lemma SagaOther(c: Config, s: State, id: Id, status: Status, output: Output)
    requires SagaInv(c, s) && id in s.active && !s.active[id].Marking? && status != Success
    ensures SagaInv(c, s.(results := s.results + [Result(id, status, output)], active := s.active[id := Releasing]))
  {
    PushResult(s.results, Result(id, status, output));
  }

  lemma SagaPhase(c: Config, s: State, s1: State)
    requires SagaInv(c, s) && s1.results == s.results && s1.saga == s.saga
    requires forall id :: IsMarking(s, id) <==> IsMarking(s1, id)
    ensures SagaInv(c, s1)
  {
  }

  // ── Every step ───────────────────────────────────────────────────────────

  lemma SharedPush(s: State, id: Id, status: Status, output: Output, shared: seq<Entry>)
    requires SharedInv(s) && id !in ResultIds(s.results)
    requires status == Success || status == Skipped ==> shared == SetShared(s.shared, id, output)
    requires status == Failed || status == Paused ==> shared == s.shared
    ensures SharedInv(s.(results := s.results + [Result(id, status, output)], shared := shared))
  {
    SetSharedSpec(s.shared, id, output);
    forall r | r in s.results ensures r.id != id {
      assert r.id in ResultIds(s.results);
    }
  }

  /** The invariants do not look at the remaining fields. */
  lemma LogFrame(c: Config, s: State, s1: State)
    requires LogInv(c, s) && s1.results == s.results && s1.saga == s.saga && s1.shared == s.shared
    requires s1.active == s.active && s1.q == s.q
    ensures LogInv(c, s1)
  {
    SagaPhase(c, s, s1);
  }

  lemma LogPhase(c: Config, s: State, id: Id, p: Phase, flying: set<Id>)
    requires LogInv(c, s) && id in s.active && !s.active[id].Marking? && !p.Marking?
    requires NotYetRun(p) ==> NotYetRun(s.active[id])
    ensures LogInv(c, s.(active := s.active[id := p], inFlight := flying))
  {
    var s1 := s.(active := s.active[id := p]);
    ResultPhase(s, id, p);
    SagaPhase(c, s, s1);
    LogFrame(c, s1, s1.(inFlight := flying));
  }

  lemma LogUnlock(c: Config, s: State, id: Id)
    requires LogInv(c, s) && id in Cleared(s.results)
    ensures LogInv(c, UnlockDownstream(c, s, id))
  {
    ResultUnlock(c, s, id);
    SagaPhase(c, s, UnlockDownstream(c, s, id));
  }

  lemma LogSkip(c: Config, s: State, id: Id, output: Output)
    requires LogInv(c, s) && CoreInv(c, s) && id in s.active && NotYetRun(s.active[id])
    ensures LogInv(c, Skip(c, s.(shared := SetShared(s.shared, id, output)), id, output))
  {
    assert id in SetOf(s.q.taken);
    var shared := SetShared(s.shared, id, output);
    var s1 := s.(results := s.results + [Result(id, Skipped, output)], active := s.active[id := Releasing]);
    ResultPush(s, id, Skipped, output, Releasing);
    SagaOther(c, s, id, Skipped, output);
    SharedPush(s, id, Skipped, output, shared);
    PushResult(s.results, Result(id, Skipped, output));
    var s2 := s1.(shared := shared);
    assert LogInv(c, s2) by {
      SagaPhase(c, s1, s2);
      ResultTake(s1, s2);
    }
    LogUnlock(c, s2, id);
    hide LogInv;
    hide SetShared;
    var s3 := UnlockDownstream(c, s2, id);
    assert s3 == Skip(c, s.(shared := shared), id, output);
  }

  lemma LogMark(c: Config, s: State, id: Id, output: Output)
    requires LogInv(c, s) && CoreInv(c, s) && IsIn(s, id, Executing)
    ensures LogInv(c, s.(results := s.results + [Result(id, Success, output)],
                         active := s.active[id := Marking(output)],
                         shared := SetShared(s.shared, id, output)))
  {
    assert id in SetOf(s.q.taken);
    var shared := SetShared(s.shared, id, output);
    var s1 := s.(results := s.results + [Result(id, Success, output)], active := s.active[id := Marking(output)]);
    ResultPush(s, id, Success, output, Marking(output));
    SagaMark(c, s, id, output);
    SharedPush(s, id, Success, output, shared);
    var s2 := s1.(shared := shared);
    SagaPhase(c, s1, s2);
    ResultTake(s1, s2);
  }

  lemma LogFinish(c: Config, s: State, id: Id)
    requires LogInv(c, s) && CoreInv(c, s) && IsMarking(s, id)
    ensures LogInv(c, Finish(c, s, id, s.active[id].output))
  {
    var out := s.active[id].output;
    var saga := if c.enableSaga then s.saga + [SagaEntry(id, out)] else s.saga;
    var s1 := s.(saga := saga, active := s.active[id := Releasing]);
    if c.enableSaga {
      SagaPush(c, s, id);
    }
    ResultPhase(s, id, Releasing);
    ResultTake(s.(active := s.active[id := Releasing]), s1);
    assert LogInv(c, s1);
    assert Result(id, Success, out) in s.results;
    LogUnlock(c, s1, id);
    hide LogInv;
    assert UnlockDownstream(c, s1, id) == Finish(c, s, id, out);
  }

  lemma LogExecute(c: Config, s: State, id: Id, status: Status, output: Output)
    requires LogInv(c, s) && CoreInv(c, s) && IsIn(s, id, Executing) && status != Skipped
    ensures LogInv(c, AfterExecute(c, s, id, status, output))
  {
    hide LogInv;
    hide CoreInv;
    if status == Success {
      var s2 := s.(results := s.results + [Result(id, Success, output)], active := s.active[id := Marking(output)],
                   shared := SetShared(s.shared, id, output));
      LogMark(c, s, id, output);
      hide SetShared;
      if !c.hasIdempotencyStore {
        MarkedCore(c, s, s2, id, output);
        LogFinish(c, s2, id);
        MarkThenFinish(c, s, s2, id, output);
      }
    } else {
      LogStop(c, s, id, status, output);
    }
  }

  /** Without a store, recording and finishing are one step: the same as marking and finishing. */
  lemma MarkThenFinish(c: Config, s: State, s2: State, id: Id, output: Output)
    requires !c.hasIdempotencyStore
    requires s2 == s.(results := s.results + [Result(id, Success, output)], active := s.active[id := Marking(output)],
                      shared := SetShared(s.shared, id, output))
    ensures Finish(c, s2, id, output) == AfterExecute(c, s, id, Success, output)
  {
    hide SetShared;
    hide Relax;
    assert s2.active[id := Releasing] == s.active[id := Releasing];
  }

  lemma LogStop(c: Config, s: State, id: Id, status: Status, output: Output)
    requires LogInv(c, s) && CoreInv(c, s) && IsIn(s, id, Executing) && (status == Failed || status == Paused)
    ensures LogInv(c, AfterExecute(c, s, id, status, output))
  {
    assert id in SetOf(s.q.taken);
    var s1 := s.(results := s.results + [Result(id, status, output)], active := s.active[id := Releasing]);
    ResultPush(s, id, status, output, Releasing);
    SagaOther(c, s, id, status, output);
    SharedPush(s, id, status, output, s.shared);
    LogFrame(c, s1, AfterExecute(c, s, id, status, output));
  }

  lemma MarkedCore(c: Config, s: State, s2: State, id: Id, output: Output)
    requires CoreInv(c, s) && IsIn(s, id, Executing)
    requires s2.q == s.q && s2.inFlight == s.inFlight && s2.active == s.active[id := Marking(output)]
    ensures CoreInv(c, s2)
  {
    hide CoreInv;
    CorePhase(c, s, id, Marking(output), s.inFlight);
    CoreFrame(c, s.(active := s.active[id := Marking(output)]), s2);
  }

  lemma LogEnter(c: Config, s: State, id: Id, p: Phase)
    requires LogInv(c, s) && id !in s.q.taken && id !in s.active && !p.Marking?
    ensures LogInv(c, s.(active := s.active[id := p]))
  {
    assert id !in SetOf(s.q.taken);
    SagaPhase(c, s, s.(active := s.active[id := p]));
  }

  lemma LogTake(c: Config, s: State, s1: State)
    requires LogInv(c, s) && s1.results == s.results && s1.active == s.active && s1.saga == s.saga
    requires s1.shared == s.shared
    requires SetOf(s.q.taken) <= SetOf(s1.q.taken) && s1.q.unlocked == s.q.unlocked
    ensures LogInv(c, s1)
  {
    SagaPhase(c, s, s1);
    ResultTake(s, s1);
  }

  lemma LogAdmit(c: Config, s: State)
    requires LogInv(c, s) && CoreInv(c, s) && s.q.ready != []
    ensures LogInv(c, AdmitHead(c, s))
  {
    var id := s.q.ready[0];
    HeadIsNew(c.graph, s.q);
    assert id !in SetOf(s.q.taken);
    assert id !in s.active;
    hide LogInv;
    hide CoreInv;
    assert SetOf(TakeHead(s.q).taken) == SetOf(s.q.taken) + {id};
    if id in s.inFlight || id in CompletedIds(c) {
      LogTake(c, s, AdmitHead(c, s));
    } else {
      var p := if s.aborted || s.failed then Settling else Acquiring;
      LogEnter(c, s, id, p);
      LogTake(c, s.(active := s.active[id := p]), AdmitHead(c, s));
    }
  }

  lemma ActiveNotCompleted(c: Config, s: State, id: Id)
    requires CoreInv(c, s) && id in s.active
    ensures id !in CompletedIds(c)
  {
  }

  lemma LogSettle(c: Config, s: State, id: Id)
    requires LogInv(c, s) && IsIn(s, id, Settling)
    ensures LogInv(c, s.(active := s.active - {id}))
  {
    SagaPhase(c, s, s.(active := s.active - {id}));
  }

  lemma LogStep(c: Config, s: State, a: Action)
    requires LogInv(c, s) && CoreInv(c, s) && Enabled(c, s, a)
    ensures LogInv(c, Apply(c, s, a))
  {
    hide LogInv;
    hide CoreInv;
    hide SetShared;
    hide UnlockDownstream;
    hide AdmitHead;
    match a
    case LoopTurn =>
      if s.mode.Admitting? && s.q.ready != [] && CanStart(c, s) {
        LogAdmit(c, s);
      } else {
        LogFrame(c, s, LoopStep(c, s));
      }
    case LeaseReply(id, granted) =>
      ActiveNotCompleted(c, s, id);
      if !granted {
        LogPhase(c, s, id, Settling, s.inFlight - {id});
      } else {
        LogPhase(c, s, id, if c.hasIdempotencyStore then Probing else Executing, s.inFlight);
      }
    case ProbeReply(id, hit) => LogPhase(c, s, id, if hit then Fetching else Executing, s.inFlight);
    case OutputReply(id, output) => LogSkip(c, s, id, output);
    case ExecuteReply(id, status, output) => LogExecute(c, s, id, status, output);
    case MarkReply(id) => LogFinish(c, s, id);
    case ReleaseReply(id) => LogPhase(c, s, id, Settling, s.inFlight - {id});
    case Settle(id) =>
      LogSettle(c, s, id);
      LogFrame(c, s.(active := s.active - {id}), Apply(c, s, a));
    case Wake => LogFrame(c, s, Apply(c, s, a));
    case Timeout => LogFrame(c, s, Apply(c, s, a));
    case DrainDone => LogFrame(c, s, Apply(c, s, a));
    case Compensate(_) => LogFrame(c, s, Apply(c, s, a));
  }
}
