/** The stand-alone saga coordinator, and its agreement with the runner's own rollback. */
module Saga {
  import opened Seqs
  import opened Graphs
  import DagState

  type Config = map<string, string>

  /** typeOverride: compensationConfig.nodeTypeId, when given. */
  datatype Entry = Entry(nodeId: Id, nodeType: string, output: Config, typeOverride: Option<string>, config: Config)

  /** The two ways an executor is asked to undo a step. */
  datatype Call =
    | Compensate(nodeId: string, typeId: string, config: Config, output: Config)
    | ExecuteInstead(nodeId: string, typeId: string, config: Config, original: Config)

  /** outcome: the error a call throws, if it does. */
  datatype Executor = Executor(canHandle: string -> bool, hasCompensate: bool, outcome: Call -> Option<string>)

  datatype Failure = Failure(nodeId: Id, error: string)

  function CompensateType(e: Entry): string {
    match e.typeOverride
    case Some(t) => t
    case None => e.nodeType + ".compensate"
  }

  /** executors.find */
  function FindExecutor(executors: seq<Executor>, typeId: string): (r: Option<nat>)
    ensures r.Some? ==> r.value < |executors| && executors[r.value].canHandle(typeId)
    ensures r.Some? ==> forall i :: 0 <= i < r.value ==> !executors[i].canHandle(typeId)
    ensures r.None? ==> forall i :: 0 <= i < |executors| ==> !executors[i].canHandle(typeId)
  {
    if executors == [] then None
    else
      var n := |executors| - 1;
      match FindExecutor(executors[..n], typeId)
      case Some(i) => Some(i)
      case None => if executors[n].canHandle(typeId) then Some(n) else None
  }

  function CallFor(executor: Executor, e: Entry): Call {
    var nodeId := e.nodeId + "__compensate";
    if executor.hasCompensate then Compensate(nodeId, CompensateType(e), e.config, e.output)
    else ExecuteInstead(nodeId, CompensateType(e), e.config, e.output)
  }

  /** The call made for an entry; none without an executor for it. */
  function CallsOf(executors: seq<Executor>, e: Entry): seq<Call> {
    match FindExecutor(executors, CompensateType(e))
    case None => []
    case Some(i) => [CallFor(executors[i], e)]
  }

  /** Without an executor there is nothing that could fail, and the entry counts as compensated. */
  function ErrorOf(executors: seq<Executor>, e: Entry): Option<string> {
    match FindExecutor(executors, CompensateType(e))
    case None => None
    case Some(i) => executors[i].outcome(CallFor(executors[i], e))
  }

  /** What the caller's two callbacks throw, if they do, when called on the k-th visit. */
  datatype Callbacks = Callbacks(onCompensated: nat -> Option<string>, onFailed: nat -> Option<string>)

  /** What the k-th visit's handler catches: the executor's error, or the first callback's. */
  function CaughtOn(executors: seq<Executor>, cb: Callbacks, k: nat, e: Entry): Option<string> {
    match ErrorOf(executors, e)
    case Some(error) => Some(error)
    case None => cb.onCompensated(k)
  }

  /** What leaves the walk: an error of the callback called from the handler. */
  function EscapesOn(executors: seq<Executor>, cb: Callbacks, k: nat, e: Entry): Option<string> {
    if CaughtOn(executors, cb, k, e).Some? then cb.onFailed(k) else None
  }

  // ── What a walk over entries leaves ──────────────────────────────────────

  function Compensated(executors: seq<Executor>, visited: seq<Entry>): seq<Id> {
    if visited == [] then []
    else
      var e := visited[|visited| - 1];
      Compensated(executors, visited[..|visited| - 1]) + (if ErrorOf(executors, e).None? then [e.nodeId] else [])
  }

  function Failures(executors: seq<Executor>, cb: Callbacks, visited: seq<Entry>): seq<Failure> {
    if visited == [] then []
    else
      var n := |visited| - 1;
      var caught := CaughtOn(executors, cb, n, visited[n]);
      Failures(executors, cb, visited[..n])
      + (if caught.Some? then [Failure(visited[n].nodeId, caught.value)] else [])
  }

  function Calls(executors: seq<Executor>, visited: seq<Entry>): seq<Call> {
    if visited == [] then []
    else Calls(executors, visited[..|visited| - 1]) + CallsOf(executors, visited[|visited| - 1])
  }

  lemma VisitOne(executors: seq<Executor>, cb: Callbacks, visited: seq<Entry>, e: Entry)
    ensures Compensated(executors, visited + [e])
         == Compensated(executors, visited) + (if ErrorOf(executors, e).None? then [e.nodeId] else [])
    ensures var caught := CaughtOn(executors, cb, |visited|, e);
            (Failures(executors, cb, visited + [e])
             == Failures(executors, cb, visited) + (if caught.Some? then [Failure(e.nodeId, caught.value)] else []))
    ensures Calls(executors, visited + [e]) == Calls(executors, visited) + CallsOf(executors, e)
  {
    assert (visited + [e])[..|visited|] == visited;
  }

  /** The walk made v visits: all of them, unless the last one let an error escape. */
  ghost predicate Walked(executors: seq<Executor>, cb: Callbacks, entries: seq<Entry>, v: nat, thrown: Option<string>) {
    && v <= |entries|
    && (forall k :: 0 <= k < v ==>
          EscapesOn(executors, cb, k, entries[k]) == if k == v - 1 then thrown else None)
    && (thrown.None? ==> v == |entries|)
    && (thrown.Some? ==> v >= 1)
  }

  /** The two lists and the calls are those of the visits made. */
  ghost predicate Told(executors: seq<Executor>, cb: Callbacks, visited: seq<Entry>, before: seq<Call>,
                       calls: seq<Call>, compensated: seq<Id>, failed: seq<Failure>) {
    && compensated == Compensated(executors, visited)
    && failed == Failures(executors, cb, visited)
    && calls == before + Calls(executors, visited)
  }

  /** v visits in, nothing has escaped. */
  ghost predicate Midway(executors: seq<Executor>, cb: Callbacks, entries: seq<Entry>, v: nat, before: seq<Call>,
                         calls: seq<Call>, compensated: seq<Id>, failed: seq<Failure>) {
    && v <= |entries| && Told(executors, cb, entries[..v], before, calls, compensated, failed)
    && forall k :: 0 <= k < v ==> EscapesOn(executors, cb, k, entries[k]) == None
  }

  lemma WalkStarts(executors: seq<Executor>, cb: Callbacks, entries: seq<Entry>, before: seq<Call>)
    ensures Midway(executors, cb, entries, 0, before, before, [], [])
  {
  }

  lemma WalkGoesOn(executors: seq<Executor>, cb: Callbacks, entries: seq<Entry>, i: nat, v: nat, before: seq<Call>,
                   calls: seq<Call>, compensated: seq<Id>, failed: seq<Failure>)
    requires i + v + 1 == |entries| && Midway(executors, cb, Reverse(entries), v, before, calls, compensated, failed)
    ensures |Reverse(entries)| == |entries| && Reverse(entries)[v] == entries[i] && |Reverse(entries)[..v]| == v
    ensures Told(executors, cb, Reverse(entries)[..v], before, calls, compensated, failed)
  {
    hide Told;
    hide EscapesOn;
  }

  lemma WalkStep(executors: seq<Executor>, cb: Callbacks, entries: seq<Entry>, v: nat, thrown: Option<string>,
                 before: seq<Call>, calls0: seq<Call>, done: seq<Id>, lost: seq<Failure>,
                 calls: seq<Call>, compensated: seq<Id>, failed: seq<Failure>)
    requires v < |entries| && Midway(executors, cb, entries, v, before, calls0, done, lost)
    requires thrown == EscapesOn(executors, cb, v, entries[v])
    requires Told(executors, cb, entries[..v] + [entries[v]], before, calls, compensated, failed)
    ensures thrown.None? ==> Midway(executors, cb, entries, v + 1, before, calls, compensated, failed)
    ensures thrown.Some? ==> Walked(executors, cb, entries, v + 1, thrown)
    ensures Told(executors, cb, entries[..v + 1], before, calls, compensated, failed)
  {
    TakeStep(entries, v);
    hide Told;
    hide EscapesOn;
  }

  lemma WalkEnds(executors: seq<Executor>, cb: Callbacks, entries: seq<Entry>, before: seq<Call>, calls: seq<Call>,
                 compensated: seq<Id>, failed: seq<Failure>)
    requires Midway(executors, cb, entries, |entries|, before, calls, compensated, failed)
    ensures Walked(executors, cb, entries, |entries|, None)
    ensures Told(executors, cb, entries[..|entries|], before, calls, compensated, failed)
  {
    hide Told;
    hide EscapesOn;
  }

  class SagaCoordinator {
    const executors: seq<Executor>
    var stack: seq<Entry>
    var calls: seq<Call>

    constructor (executors: seq<Executor>)
      ensures this.executors == executors && stack == [] && calls == []
    {
      this.executors, stack, calls := executors, [], [];
    }

    method Push(entry: Entry)
      modifies this`stack
      ensures stack == old(stack) + [entry]
    {
      stack := stack + [entry];
    }

    method Clear()
      modifies this`stack
      ensures stack == []
    {
      stack := [];
    }

    /** One entry; an error is caught and reported. */
    method Undo(e: Entry) returns (error: Option<string>)
      modifies this`calls
      ensures error == ErrorOf(executors, e) && calls == old(calls) + CallsOf(executors, e)
    {
      var i := FindExecutor(executors, CompensateType(e));
      error := None;
      if i.Some? {
        var call := CallFor(executors[i.value], e);
        calls := calls + [call];
        error := executors[i.value].outcome(call);
      }
    }

    /**
     * The stack, last pushed first. No failing step ends the walk; an error thrown by onFailed does, and
     * then the stack is left as it was.
     */
    method CompensateAll(cb: Callbacks)
      returns (thrown: Option<string>, compensated: seq<Id>, failed: seq<Failure>, ghost v: nat)
      modifies this
      ensures Walked(executors, cb, Reverse(old(stack)), v, thrown)
      ensures Told(executors, cb, Reverse(old(stack))[..v], old(calls), calls, compensated, failed)
      ensures stack == if thrown.Some? then old(stack) else []
    {
      thrown, compensated, failed, v := Walk(stack, cb);
      if thrown.None? {
        stack := [];
      }
    }

    method Walk(entries: seq<Entry>, cb: Callbacks)
      returns (thrown: Option<string>, compensated: seq<Id>, failed: seq<Failure>, ghost v: nat)
      modifies this`calls
      ensures Walked(executors, cb, Reverse(entries), v, thrown)
      ensures Told(executors, cb, Reverse(entries)[..v], old(calls), calls, compensated, failed)
    {
      thrown, compensated, failed := None, [], [];
      ghost var back := Reverse(entries);
      v := 0;
      var i := |entries|;
      WalkStarts(executors, cb, back, calls);
      assert |back| == |entries|;
      hide *;
      while i > 0
        invariant 0 <= i <= |entries| && v == |entries| - i && thrown == None
        invariant Midway(executors, cb, back, v, old(calls), calls, compensated, failed)
      {
        i := i - 1;
        WalkGoesOn(executors, cb, entries, i, v, old(calls), calls, compensated, failed);
        ghost var calls0, done, lost := calls, compensated, failed;
        thrown, compensated, failed :=
          Visit(entries[i], |entries| - 1 - i, cb, compensated, failed, back[..v], old(calls));
        WalkStep(executors, cb, back, v, thrown, old(calls), calls0, done, lost, calls, compensated, failed);
        v := v + 1;
        if thrown.Some? {
          return;
        }
      }
      WalkEnds(executors, cb, back, old(calls), calls, compensated, failed);
    }

    /** One turn of the walk: undo, report, call back; visited: the entries before this one. */
    method Visit(entry: Entry, k: nat, cb: Callbacks, done: seq<Id>, lost: seq<Failure>,
                 ghost visited: seq<Entry>, ghost calls0: seq<Call>)
      returns (thrown: Option<string>, compensated: seq<Id>, failed: seq<Failure>)
      requires Told(executors, cb, visited, calls0, calls, done, lost) && k == |visited|
      modifies this`calls
      ensures thrown == EscapesOn(executors, cb, k, entry)
      ensures Told(executors, cb, visited + [entry], calls0, calls, compensated, failed)
    {
      thrown, compensated, failed := None, done, lost;
      VisitOne(executors, cb, visited, entry);
      Assoc(calls0, Calls(executors, visited), CallsOf(executors, entry));
      var caught := Undo(entry);
      hide Compensated;
      hide Failures;
      hide Calls;
      hide CallsOf;
      hide ErrorOf;
      if caught.None? {
        compensated := compensated + [entry.nodeId];
        caught := cb.onCompensated(k);
      }
      if caught.Some? {
        failed := failed + [Failure(entry.nodeId, caught.value)];
        thrown := cb.onFailed(k);
      }
    }
  }

  // ── What it keeps ────────────────────────────────────────────────────────

  function EntryIds(entries: seq<Entry>): (ids: seq<Id>)
    ensures |ids| == |entries| && forall i :: 0 <= i < |ids| ==> ids[i] == entries[i].nodeId
  {
    seq(|entries|, i requires 0 <= i < |entries| => entries[i].nodeId)
  }

  function FailureIds(failed: seq<Failure>): (ids: seq<Id>)
    ensures |ids| == |failed| && forall i :: 0 <= i < |ids| ==> ids[i] == failed[i].nodeId
  {
    seq(|failed|, i requires 0 <= i < |failed| => failed[i].nodeId)
  }

  lemma IdsOneMore(visited: seq<Entry>, e: Entry, failed: seq<Failure>, f: Failure)
    ensures EntryIds(visited + [e]) == EntryIds(visited) + [e.nodeId]
    ensures FailureIds(failed + [f]) == FailureIds(failed) + [f.nodeId]
  {
  }

  /** The entries whose step worked and whose first callback then threw. */
  function DoubledIds(executors: seq<Executor>, cb: Callbacks, visited: seq<Entry>): seq<Id> {
    if visited == [] then []
    else
      var n := |visited| - 1;
      DoubledIds(executors, cb, visited[..n])
      + (if ErrorOf(executors, visited[n]).None? && cb.onCompensated(n).Some? then [visited[n].nodeId] else [])
  }

  lemma {:induction false} DoubledMeaning(executors: seq<Executor>, cb: Callbacks, visited: seq<Entry>, id: Id)
    ensures id in DoubledIds(executors, cb, visited) <==>
              exists k :: 0 <= k < |visited| && visited[k].nodeId == id
                && ErrorOf(executors, visited[k]).None? && cb.onCompensated(k).Some?
    decreases |visited|
  {
    hide ErrorOf;
    if visited != [] {
      var n := |visited| - 1;
      DoubledMeaning(executors, cb, visited[..n], id);
    }
  }

  lemma DoubledOne(executors: seq<Executor>, cb: Callbacks, visited: seq<Entry>, e: Entry)
    ensures DoubledIds(executors, cb, visited + [e])
         == DoubledIds(executors, cb, visited)
          + (if ErrorOf(executors, e).None? && cb.onCompensated(|visited|).Some? then [e.nodeId] else [])
  {
    hide ErrorOf;
    assert (visited + [e])[..|visited|] == visited;
  }

  function Reports(executors: seq<Executor>, cb: Callbacks, visited: seq<Entry>, id: Id): nat {
    Count(Compensated(executors, visited), id) + Count(FailureIds(Failures(executors, cb, visited)), id)
  }

  lemma FailureIdsOneMore(failed: seq<Failure>, f: Failure)
    ensures FailureIds(failed + [f]) == FailureIds(failed) + [f.nodeId]
  {
  }

  lemma EntryIdsOneMore(visited: seq<Entry>, e: Entry)
    ensures EntryIds(visited + [e]) == EntryIds(visited) + [e.nodeId]
  {
  }

  lemma CountMaybe(ids: seq<Id>, id: Id, more: bool, x: Id)
    ensures Count(ids + (if more then [id] else []), x) == Count(ids, x) + (if more && id == x then 1 else 0)
  {
    if more {
      CountAppend(ids, id, x);
    } else {
      assert ids + [] == ids;
    }
  }

  lemma FailureIdsMaybe(failed: seq<Failure>, id: Id, caught: Option<string>)
    ensures FailureIds(failed + (if caught.Some? then [Failure(id, caught.value)] else []))
         == FailureIds(failed) + (if caught.Some? then [id] else [])
  {
    if caught.Some? {
      FailureIdsOneMore(failed, Failure(id, caught.value));
    } else {
      assert failed + [] == failed && FailureIds(failed) + [] == FailureIds(failed);
    }
  }

  lemma ReportsOneMore(executors: seq<Executor>, cb: Callbacks, visited: seq<Entry>, e: Entry, id: Id)
    ensures var k := |visited|;
            var good, caught := ErrorOf(executors, e).None?, CaughtOn(executors, cb, k, e).Some?;
            (Reports(executors, cb, visited + [e], id)
             == Reports(executors, cb, visited, id)
                + (if good && e.nodeId == id then 1 else 0) + (if caught && e.nodeId == id then 1 else 0))
  {
    var good, bad := Compensated(executors, visited), Failures(executors, cb, visited);
    var caught := CaughtOn(executors, cb, |visited|, e);
    assert Reports(executors, cb, visited, id) == Count(good, id) + Count(FailureIds(bad), id);
    assert Reports(executors, cb, visited + [e], id)
        == Count(Compensated(executors, visited + [e]), id)
           + Count(FailureIds(Failures(executors, cb, visited + [e])), id);
    hide *;
    VisitOne(executors, cb, visited, e);
    CountMaybe(good, e.nodeId, ErrorOf(executors, e).None?, id);
    FailureIdsMaybe(bad, e.nodeId, caught);
    CountMaybe(FailureIds(bad), e.nodeId, caught.Some?, id);
  }

  lemma ReportsSnoc(executors: seq<Executor>, cb: Callbacks, front: seq<Entry>, e: Entry, id: Id)
    requires Reports(executors, cb, front, id)
          == Count(EntryIds(front), id) + Count(DoubledIds(executors, cb, front), id)
    ensures Reports(executors, cb, front + [e], id)
         == Count(EntryIds(front + [e]), id) + Count(DoubledIds(executors, cb, front + [e]), id)
  {
    CaughtCases(executors, cb, |front|, e);
    hide *;
    ReportsOneMore(executors, cb, front, e, id);
    EntryIdsOneMore(front, e);
    CountAppend(EntryIds(front), e.nodeId, id);
    DoubledOne(executors, cb, front, e);
    CountMaybe(DoubledIds(executors, cb, front), e.nodeId,
               ErrorOf(executors, e).None? && cb.onCompensated(|front|).Some?, id);
  }

  lemma ReportsNone(executors: seq<Executor>, cb: Callbacks, id: Id)
    ensures Reports(executors, cb, [], id) == Count(EntryIds([]), id) + Count(DoubledIds(executors, cb, []), id)
  {
  }

  /** Every visit is reported once, in one list or the other, and once more if it is doubled. */
  lemma {:induction false} ReportsAddUp(executors: seq<Executor>, cb: Callbacks, visited: seq<Entry>, id: Id)
    ensures Reports(executors, cb, visited, id)
         == Count(EntryIds(visited), id) + Count(DoubledIds(executors, cb, visited), id)
    decreases |visited|
  {
    if visited == [] {
      ReportsNone(executors, cb, id);
    } else {
      hide *;
      var front, e := visited[..|visited| - 1], visited[|visited| - 1];
      ReportsAddUp(executors, cb, front, id);
      ReportsSnoc(executors, cb, front, e, id);
      assert visited == front + [e];
    }
  }

  lemma CaughtCases(executors: seq<Executor>, cb: Callbacks, k: nat, e: Entry)
    ensures CaughtOn(executors, cb, k, e).Some? <==> ErrorOf(executors, e).Some? || cb.onCompensated(k).Some?
  {
  }

  /** An id is reported as often as it was visited if and only if no callback threw behind a step that worked. */
  lemma ReportedOnceIff(executors: seq<Executor>, cb: Callbacks, visited: seq<Entry>, id: Id)
    ensures Reports(executors, cb, visited, id) == Count(EntryIds(visited), id) <==>
              forall k :: 0 <= k < |visited| && visited[k].nodeId == id && ErrorOf(executors, visited[k]).None?
                ==> cb.onCompensated(k).None?
  {
    ReportsAddUp(executors, cb, visited, id);
    CountZero(DoubledIds(executors, cb, visited), id);
    DoubledMeaning(executors, cb, visited, id);
    hide Reports;
    hide DoubledIds;
    hide ErrorOf;
  }

  /** The walk visits everything and empties the stack if and only if onFailed never throws. */
  lemma WalkCompletesIff(executors: seq<Executor>, cb: Callbacks, entries: seq<Entry>, v: nat, thrown: Option<string>)
    requires Walked(executors, cb, entries, v, thrown)
    ensures thrown.None? <==> forall k :: 0 <= k < |entries| ==> EscapesOn(executors, cb, k, entries[k]).None?
    ensures thrown.None? ==> v == |entries|
  {
    hide EscapesOn;
    if thrown.Some? {
      assert EscapesOn(executors, cb, v - 1, entries[v - 1]) == thrown;
    }
  }

  lemma {:induction false} CountReverse<T>(s: seq<T>, x: T)
    ensures Count(Reverse(s), x) == Count(s, x)
  {
    if s != [] {
      var n := |s| - 1;
      CountReverse(s[..n], x);
      CountConcat([s[n]], Reverse(s[..n]), x);
      CountAppend([], s[n], x);
      assert [] + [s[n]] == [s[n]];
    }
  }

  /** In a complete walk pushed entries and reported ids agree with multiplicity, but for the doubled ones. */
  lemma NothingIsLost(executors: seq<Executor>, cb: Callbacks, stack: seq<Entry>, id: Id)
    ensures Reports(executors, cb, Reverse(stack), id)
         == Count(EntryIds(stack), id) + Count(DoubledIds(executors, cb, Reverse(stack)), id)
  {
    hide *;
    ReportsAddUp(executors, cb, Reverse(stack), id);
    ReverseIds(stack);
    CountReverse(EntryIds(stack), id);
  }

  lemma ReverseIds(stack: seq<Entry>)
    ensures EntryIds(Reverse(stack)) == Reverse(EntryIds(stack))
  {
  }

  /** The id of a compensated entry stands where the compensated ones before it end. */
  lemma {:induction false} CompensatedAt(executors: seq<Executor>, visited: seq<Entry>, k: nat)
    requires k < |visited| && ErrorOf(executors, visited[k]).None?
    ensures var at := |Compensated(executors, visited[..k])|;
            at < |Compensated(executors, visited)| && Compensated(executors, visited)[at] == visited[k].nodeId
    decreases |visited|
  {
    var n := |visited| - 1;
    if k < n {
      CompensatedAt(executors, visited[..n], k);
      assert visited[..n][..k] == visited[..k];
    }
  }

  lemma {:induction false} CompensatedGrows(executors: seq<Executor>, visited: seq<Entry>, j: nat, k: nat)
    requires j < k <= |visited| && ErrorOf(executors, visited[j]).None?
    ensures |Compensated(executors, visited[..j])| < |Compensated(executors, visited[..k])|
    decreases k
  {
    TakeStep(visited, k - 1);
    if j < k - 1 {
      CompensatedGrows(executors, visited, j, k - 1);
    }
  }

  /** Last in, first out: of two compensated entries the one pushed later is reported first. */
  lemma LaterPushedFirst(executors: seq<Executor>, stack: seq<Entry>, i: nat, j: nat) returns (x: nat, y: nat)
    requires i < j < |stack| && ErrorOf(executors, stack[i]).None? && ErrorOf(executors, stack[j]).None?
    ensures var done := Compensated(executors, Reverse(stack));
            x < y < |done| && done[x] == stack[j].nodeId && done[y] == stack[i].nodeId
  {
    hide *;
    var back := Reverse(stack);
    var a, b := |stack| - 1 - j, |stack| - 1 - i;
    CompensatedAt(executors, back, a);
    CompensatedAt(executors, back, b);
    CompensatedGrows(executors, back, a, b);
    x, y := |Compensated(executors, back[..a])|, |Compensated(executors, back[..b])|;
  }

  // ── What is called and what is reported ──────────────────────────────────

  /** executors[i] is the first that takes the type. */
  predicate FirstFor(executors: seq<Executor>, typeId: string, i: nat) {
    i < |executors| && executors[i].canHandle(typeId) && forall j :: 0 <= j < i ==> !executors[j].canHandle(typeId)
  }

  /** How that executor is asked: through compensate if it has one, else through execute. */
  predicate Asks(executor: Executor, e: Entry, call: Call) {
    && call.nodeId == e.nodeId + "__compensate"
    && call.typeId == (if e.typeOverride.Some? then e.typeOverride.value else e.nodeType + ".compensate")
    && call.config == e.config
    && match call
       case Compensate(_, _, _, output) => executor.hasCompensate && output == e.output
       case ExecuteInstead(_, _, _, original) => !executor.hasCompensate && original == e.output
  }

  /**
   * An entry's only call goes to the first executor of its compensating type, and the error of the entry
   * is the error of that call; without such an executor there is neither.
   */
  lemma UndoneByFirst(executors: seq<Executor>, e: Entry, i: nat, call: Call)
    requires FirstFor(executors, CompensateType(e), i)
    ensures CallsOf(executors, e) == [call] <==> Asks(executors[i], e, call)
    ensures CallsOf(executors, e) == [call] ==> ErrorOf(executors, e) == executors[i].outcome(call)
  {
    var r := FindExecutor(executors, CompensateType(e));
    assert r == Some(i);
    hide FindExecutor;
    hide FirstFor;
    assert [CallFor(executors[i], e)][0] == CallFor(executors[i], e) && [call][0] == call;
  }

  lemma NotUndone(executors: seq<Executor>, e: Entry)
    ensures CallsOf(executors, e) == [] <==> forall i: nat :: !FirstFor(executors, CompensateType(e), i)
    ensures CallsOf(executors, e) == [] ==> ErrorOf(executors, e) == None
  {
    var r := FindExecutor(executors, CompensateType(e));
    hide FindExecutor;
    if r.Some? {
      assert FirstFor(executors, CompensateType(e), r.value);
    }
  }

  ghost predicate FailedOn(executors: seq<Executor>, cb: Callbacks, visited: seq<Entry>, k: nat, f: Failure) {
    && k < |visited| && visited[k].nodeId == f.nodeId
    && (ErrorOf(executors, visited[k]) == Some(f.error)
        || (ErrorOf(executors, visited[k]).None? && cb.onCompensated(k) == Some(f.error)))
  }

  /** A failure is reported if and only if some visit met exactly that error, from its call or from the callback. */
  lemma {:induction false} FailuresSay(executors: seq<Executor>, cb: Callbacks, visited: seq<Entry>, f: Failure)
    ensures f in Failures(executors, cb, visited) <==> exists k :: FailedOn(executors, cb, visited, k, f)
    decreases |visited|
  {
    if visited != [] {
      var n := |visited| - 1;
      FailuresSay(executors, cb, visited[..n], f);
      hide ErrorOf;
      forall k: nat
        ensures FailedOn(executors, cb, visited, k, f) <==>
                  FailedOn(executors, cb, visited[..n], k, f) || (k == n && FailedOn(executors, cb, visited, n, f)) {
      }
      FailedLast(executors, cb, visited, f);
      hide CaughtOn;
      hide FailedOn;
    }
  }

  lemma FailedLast(executors: seq<Executor>, cb: Callbacks, visited: seq<Entry>, f: Failure)
    requires visited != []
    ensures var n := |visited| - 1;
            var caught := CaughtOn(executors, cb, n, visited[n]);
            (FailedOn(executors, cb, visited, n, f) <==> caught.Some? && f == Failure(visited[n].nodeId, caught.value))
  {
    hide ErrorOf;
  }

  // ── The runner's own rollback ────────────────────────────────────────────

  /** The runner's compensation steps, with the outcomes of the same executors. */
  function Rollback(s: DagState.State, executors: seq<Executor>, visited: seq<Entry>): DagState.State
    requires s.mode.Compensating? && |visited| <= s.mode.left <= |s.saga|
    ensures Rollback(s, executors, visited).mode == DagState.Compensating(s.mode.left - |visited|)
    ensures Rollback(s, executors, visited).saga == s.saga
  {
    if visited == [] then s
    else
      var n := |visited| - 1;
      DagState.AfterCompensate(Rollback(s, executors, visited[..n]), ErrorOf(executors, visited[n]).None?)
  }

  function CompensatedIn(events: seq<DagState.Event>): seq<Id> {
    if events == [] then []
    else
      var e := events[|events| - 1];
      CompensatedIn(events[..|events| - 1]) + (if e.NodeCompensated? then [e.id] else [])
  }

  lemma CompensatedInStep(events: seq<DagState.Event>, id: Id, ok: bool)
    ensures CompensatedIn(events + [DagState.NodeCompensating(id)]
                          + (if ok then [DagState.NodeCompensated(id)] else []))
         == CompensatedIn(events) + (if ok then [id] else [])
  {
    var one := events + [DagState.NodeCompensating(id)];
    assert one[..|one| - 1] == events;
    if ok {
      var two := one + [DagState.NodeCompensated(id)];
      assert two[..|two| - 1] == one;
    } else {
      assert one + [] == one;
    }
  }

  lemma CompensatedOne(executors: seq<Executor>, e: Entry)
    ensures Compensated(executors, [e]) == if ErrorOf(executors, e).None? then [e.nodeId] else []
  {
    hide ErrorOf;
    assert [e][..0] == [];
    assert [] + [e.nodeId] == [e.nodeId];
  }

  lemma RollbackUnfolds(s: DagState.State, executors: seq<Executor>, front: seq<Entry>, e: Entry)
    requires s.mode.Compensating? && |front| < s.mode.left <= |s.saga|
    ensures Rollback(s, executors, front + [e])
         == DagState.AfterCompensate(Rollback(s, executors, front), ErrorOf(executors, e).None?)
  {
    hide ErrorOf;
    hide DagState.AfterCompensate;
    assert (front + [e])[..|front|] == front;
  }

  lemma AfterStep(s: DagState.State, ok: bool, id: Id)
    requires s.mode.Compensating? && 0 < s.mode.left <= |s.saga| && id == s.saga[s.mode.left - 1].id
    ensures CompensatedIn(DagState.AfterCompensate(s, ok).events) == CompensatedIn(s.events) + (if ok then [id] else [])
  {
    hide CompensatedIn;
    CompensatedInStep(s.events, id, ok);
  }

  lemma RollbackSnoc(s: DagState.State, executors: seq<Executor>, front: seq<Entry>, e: Entry)
    requires s.mode.Compensating? && |front| < s.mode.left <= |s.saga|
    requires e.nodeId == s.saga[s.mode.left - 1 - |front|].id
    ensures CompensatedIn(Rollback(s, executors, front + [e]).events)
         == CompensatedIn(Rollback(s, executors, front).events) + Compensated(executors, [e])
  {
    hide *;
    RollbackUnfolds(s, executors, front, e);
    CompensatedOne(executors, e);
    AfterStep(Rollback(s, executors, front), ErrorOf(executors, e).None?, e.nodeId);
  }

  lemma CompensatedSnoc(executors: seq<Executor>, front: seq<Entry>, e: Entry)
    ensures Compensated(executors, front + [e]) == Compensated(executors, front) + Compensated(executors, [e])
  {
    CompensatedOne(executors, e);
    assert (front + [e])[..|front|] == front;
    hide ErrorOf;
  }

  lemma RollbackOneMore(s: DagState.State, executors: seq<Executor>, front: seq<Entry>, e: Entry)
    requires s.mode.Compensating? && |front| < s.mode.left <= |s.saga|
    requires e.nodeId == s.saga[s.mode.left - 1 - |front|].id
    requires CompensatedIn(Rollback(s, executors, front).events) ==
              CompensatedIn(s.events) + Compensated(executors, front)
    ensures CompensatedIn(Rollback(s, executors, front + [e]).events)
         == CompensatedIn(s.events) + Compensated(executors, front + [e])
  {
    hide *;
    RollbackSnoc(s, executors, front, e);
    CompensatedSnoc(executors, front, e);
    Assoc(CompensatedIn(s.events), Compensated(executors, front), Compensated(executors, [e]));
  }

  lemma NothingRolledBack(s: DagState.State, executors: seq<Executor>)
    requires s.mode.Compensating? && s.mode.left <= |s.saga|
    ensures CompensatedIn(Rollback(s, executors, []).events) == CompensatedIn(s.events) + Compensated(executors, [])
  {
    hide CompensatedIn;
    assert CompensatedIn(s.events) + [] == CompensatedIn(s.events);
  }

  /** The coordinator's entries, visited so far, are the run's stack from the top. */
  predicate Mirrors(s: DagState.State, visited: seq<Entry>) {
    && s.mode.Compensating? && |visited| <= s.mode.left <= |s.saga|
    && forall i :: 0 <= i < |visited| ==> visited[i].nodeId == s.saga[s.mode.left - 1 - i].id
  }

  lemma MirrorsFront(s: DagState.State, front: seq<Entry>, e: Entry)
    requires Mirrors(s, front + [e])
    ensures Mirrors(s, front) && s.mode.Compensating? && |front| < s.mode.left <= |s.saga|
    ensures e.nodeId == s.saga[s.mode.left - 1 - |front|].id
  {
    var all := front + [e];
    assert all[|front|] == e;
    assert forall i :: 0 <= i < |front| ==> all[i] == front[i];
  }

  /** Both implementations compensate the same nodes in the same order. */
  lemma {:induction false} RollbackAgrees(s: DagState.State, executors: seq<Executor>, visited: seq<Entry>)
    requires Mirrors(s, visited)
    ensures CompensatedIn(Rollback(s, executors, visited).events)
         == CompensatedIn(s.events) + Compensated(executors, visited)
    decreases |visited|
  {
    if visited == [] {
      NothingRolledBack(s, executors);
    } else {
      var front, e := visited[..|visited| - 1], visited[|visited| - 1];
      assert visited == front + [e];
      hide *;
      MirrorsFront(s, front, e);
      RollbackAgrees(s, executors, front);
      RollbackOneMore(s, executors, front, e);
    }
  }
}
