/** The sequential reference runner, and its agreement with the concurrent one. */
module SequentialRunner {
  import opened Seqs
  import opened Graphs
  import opened Kahn
  import TopologicalSort
  import DagState
  import DagCompletion

  type Output = map<string, string>

  /** Other: paused, skipped or compensated, which this runner neither retries past nor stops at. */
  datatype Status = Success | Failed | Other
  datatype Reply = Replied(status: Status, output: Output) | Thrown(error: string)
  datatype Result = Result(id: Id, status: Status, output: Output)

  /** The executors' answers: for a node, the attempt and the input given. */
  type Executor = (Id, nat, Output) -> Reply

  datatype Setup = Setup(exec: Executor, handled: set<Id>, maxRetries: int)

  // ── One node ─────────────────────────────────────────────────────────────

  predicate Succeeds(s: Setup, id: Id, input: Output, attempt: nat) {
    var reply := s.exec(id, attempt, input);
    reply.Replied? && reply.status.Success?
  }

  /** Attempts stop at the first success, or run out. */
  predicate EndsAt(s: Setup, id: Id, input: Output, k: nat) {
    && (forall a :: 1 <= a < k ==> !Succeeds(s, id, input, a))
    && (k < s.maxRetries ==> k >= 1 && Succeeds(s, id, input, k))
    && (k > 0 ==> k <= s.maxRetries)
  }

  /** A throw leaves an earlier reply in place. */
  function LastReply(s: Setup, id: Id, input: Output, k: nat): Option<Result> {
    if k == 0 then None
    else
      match s.exec(id, k, input)
      case Replied(status, output) => Some(Result(id, status, output))
      case Thrown(_) => LastReply(s, id, input, k - 1)
  }

  function Recorded(s: Setup, id: Id, input: Output, k: nat): Result {
    match LastReply(s, id, input, k)
    case None => Result(id, Failed, map[])
    case Some(r) => if r.status.Failed? then Result(id, Failed, map[]) else r
  }

  function NextInput(s: Setup, id: Id, input: Output, k: nat): Output {
    if k >= 1 && Succeeds(s, id, input, k) then s.exec(id, k, input).output["_prevNode" := id] else input
  }

  method RunNode(s: Setup, id: Id, input: Output) returns (result: Option<Result>, next: Output, k: nat)
    ensures EndsAt(s, id, input, k)
    ensures result == LastReply(s, id, input, k) && next == NextInput(s, id, input, k)
  {
    result, next, k := None, input, 0;
    while k < s.maxRetries
      invariant k > 0 ==> k <= s.maxRetries
      invariant forall a :: 1 <= a <= k ==> !Succeeds(s, id, input, a)
      invariant result == LastReply(s, id, input, k) && next == input
      decreases s.maxRetries - k
    {
      k := k + 1;
      var reply := s.exec(id, k, input);
      if reply.Replied? {
        result := Some(Result(id, reply.status, reply.output));
        if reply.status.Success? {
          next := reply.output["_prevNode" := id];
          return;
        }
      }
    }
  }

  /** The j-th reply is a result, and every later attempt threw. */
  predicate LastAnswered(s: Setup, id: Id, input: Output, j: nat, k: nat, r: Result) {
    && 1 <= j <= k && s.exec(id, j, input) == Replied(r.status, r.output) && r.id == id
    && forall a :: j < a <= k ==> s.exec(id, a, input).Thrown?
  }

  /**
   * Behind k attempts a result is recorded as it was replied if and only if it was the last reply, no matter
   * how many attempts threw behind it, and it was not a failure; anything else is recorded as an empty failure.
   */
  lemma RecordedIff(s: Setup, id: Id, input: Output, k: nat, r: Result)
    requires !r.status.Failed?
    ensures Recorded(s, id, input, k) == r <==> exists j: nat :: LastAnswered(s, id, input, j, k, r)
    ensures Recorded(s, id, input, k).status.Failed? ==> Recorded(s, id, input, k) == Result(id, Failed, map[])
  {
    LastReplyIs(s, id, input, k);
    LastReplyIff(s, id, input, k, r);
    hide LastReply;
    hide LastAnswered;
  }

  lemma {:induction false} LastReplyIff(s: Setup, id: Id, input: Output, k: nat, r: Result)
    ensures LastReply(s, id, input, k) == Some(r) <==> exists j: nat :: LastAnswered(s, id, input, j, k, r)
    decreases k
  {
    if k > 0 {
      LastReplyIff(s, id, input, k - 1, r);
      if s.exec(id, k, input).Replied? {
        assert LastReply(s, id, input, k) == Some(r) ==> LastAnswered(s, id, input, k, k, r);
      } else {
        var before := k - 1;
        forall j: nat ensures LastAnswered(s, id, input, j, k, r) <==> LastAnswered(s, id, input, j, before, r) {
        }
        hide LastAnswered;
      }
    }
  }

  // ── The run ──────────────────────────────────────────────────────────────

  function ResultIds(results: seq<Result>): seq<Id> {
    seq(|results|, i requires 0 <= i < |results| => results[i].id)
  }

  /** Node and input determine what is recorded and what the next node is given. */
  ghost predicate NodeStep(s: Setup, id: Id, input: Output, r: Result, next: Output) {
    if id in s.handled then
      exists k :: EndsAt(s, id, input, k) && r == Recorded(s, id, input, k) && next == NextInput(s, id, input, k)
    else
      r == Result(id, Failed, map[]) && next == input
  }

  /** inputs[i] is what the i-th node was given; one more than there are results. */
  ghost predicate SequentialRun(s: Setup, order: seq<Id>, trigger: Output, results: seq<Result>, inputs: seq<Output>) {
    && ResultIds(results) <= order
    && |inputs| == |results| + 1 && inputs[0] == trigger
    && (forall i :: 0 <= i < |results| ==> NodeStep(s, order[i], inputs[i], results[i], inputs[i + 1]))
    && (forall i :: 0 <= i < |results| - 1 ==> !results[i].status.Failed?)
  }

  lemma AppendResult(results: seq<Result>, r: Result)
    ensures ResultIds(results + [r]) == ResultIds(results) + [r.id]
  {
  }

  method Step(s: Setup, id: Id, input: Output) returns (r: Result, next: Output)
    ensures NodeStep(s, id, input, r, next) && r.id == id
  {
    if id !in s.handled {
      return Result(id, Failed, map[]), input;
    }
    var result, after, k := RunNode(s, id, input);
    next := after;
    if result.None? || result.value.status.Failed? {
      r := Result(id, Failed, map[]);
    } else {
      r := result.value;
    }
    assert r == Recorded(s, id, input, k);
    LastReplyIs(s, id, input, k);
  }

  lemma {:induction false} LastReplyIs(s: Setup, id: Id, input: Output, k: nat)
    ensures LastReply(s, id, input, k).Some? ==> LastReply(s, id, input, k).value.id == id
    decreases k
  {
    if k > 0 {
      LastReplyIs(s, id, input, k - 1);
    }
  }

  /** Results come in sort order; the run stops short only behind a failed node. */
  method Run(g: Graph, s: Setup, trigger: Output) returns (results: seq<Result>, ghost inputs: seq<Output>)
    ensures SequentialRun(s, KahnOrder(g), trigger, results, inputs)
    ensures |results| < |KahnOrder(g)| ==> results != [] && results[|results| - 1].status.Failed?
  {
    var sorted := TopologicalSort.TopologicalSort(g);
    ghost var order := KahnOrder(g);
    assert |sorted| == |order| && forall i :: 0 <= i < |sorted| ==> sorted[i].id == order[i];
    hide KahnOrder;
    results, inputs := [], [trigger];
    var currentInput := trigger;
    for i := 0 to |sorted|
      invariant |results| == i && SequentialRun(s, order, trigger, results, inputs)
      invariant forall j :: 0 <= j < i ==> !results[j].status.Failed?
      invariant currentInput == inputs[i]
    {
      var r, next := Step(s, sorted[i].id, currentInput);
      RunExtends(s, order, trigger, results, inputs, r, next);
      results, inputs := results + [r], inputs + [next];
      if r.status.Failed? {
        return;
      }
      currentInput := next;
    }
  }

  lemma RunExtends(s: Setup, order: seq<Id>, trigger: Output, results: seq<Result>, inputs: seq<Output>, r: Result,
                   next: Output)
    requires SequentialRun(s, order, trigger, results, inputs) && |results| < |order|
    requires forall j :: 0 <= j < |results| ==> !results[j].status.Failed?
    requires NodeStep(s, order[|results|], inputs[|results|], r, next) && r.id == order[|results|]
    ensures SequentialRun(s, order, trigger, results + [r], inputs + [next])
  {
    hide NodeStep;
    AppendResult(results, r);
    var all, given := results + [r], inputs + [next];
    forall i | 0 <= i < |all| ensures NodeStep(s, order[i], given[i], all[i], given[i + 1]) {
      if i < |results| {
        assert given[i] == inputs[i] && given[i + 1] == inputs[i + 1] && all[i] == results[i];
      }
    }
  }

  // ── When nothing fails ───────────────────────────────────────────────────

  predicate SucceedsInTime(s: Setup, id: Id, input: Output) {
    exists k :: 1 <= k <= s.maxRetries && Succeeds(s, id, input, k)
  }

  /** Whatever a node is given, one of its attempts succeeds. */
  ghost predicate Reliable(s: Setup, id: Id) {
    id in s.handled && forall input :: SucceedsInTime(s, id, input)
  }

  lemma ReliableSucceeds(s: Setup, id: Id, input: Output, r: Result, next: Output)
    requires Reliable(s, id) && NodeStep(s, id, input, r, next)
    ensures r.status.Success? && next == r.output["_prevNode" := id]
  {
    var k :| EndsAt(s, id, input, k) && r == Recorded(s, id, input, k) && next == NextInput(s, id, input, k);
    assert SucceedsInTime(s, id, input);
    var a :| 1 <= a <= s.maxRetries && Succeeds(s, id, input, a);
    assert Succeeds(s, id, input, k) && k >= 1;
  }

  /** With reliable nodes the run is the whole sort, and each node is given its predecessor's output. */
  lemma ReliableRunIsComplete(g: Graph, s: Setup, trigger: Output, results: seq<Result>, inputs: seq<Output>)
    requires SequentialRun(s, KahnOrder(g), trigger, results, inputs)
    requires |results| < |KahnOrder(g)| ==> results != [] && results[|results| - 1].status.Failed?
    requires forall id :: id in KahnOrder(g) ==> Reliable(s, id)
    ensures ResultIds(results) == KahnOrder(g)
    ensures forall i :: 0 <= i < |results| ==>
              results[i].status.Success? && inputs[i + 1] == results[i].output["_prevNode" := results[i].id]
  {
    hide KahnOrder;
    var order := KahnOrder(g);
    forall i | 0 <= i < |results|
      ensures results[i].status.Success? && inputs[i + 1] == results[i].output["_prevNode" := results[i].id]
    {
      assert order[i] in order;
      assert ResultIds(results)[i] == order[i];
      ReliableSucceeds(s, order[i], inputs[i], results[i], inputs[i + 1]);
    }
  }

  /** One node at a time and nothing failing, the concurrent runner records the same ids in the same order. */
  lemma RunnersAgree(s: Setup, trigger: Output, results: seq<Result>, inputs: seq<Output>,
                     c: DagState.Config, acts: seq<DagState.Action>, states: seq<DagState.State>, i: nat)
    requires SequentialRun(s, KahnOrder(c.graph), trigger, results, inputs)
    requires |results| < |KahnOrder(c.graph)| ==> results != [] && results[|results| - 1].status.Failed?
    requires forall id :: id in KahnOrder(c.graph) ==> Reliable(s, id)
    requires DagCompletion.GoodRun(c, acts, states) && c.maxParallel == 1 && i < |states| && states[i].mode.Ended?
    ensures DagCompletion.ResultSeq(states[i].results) == ResultIds(results)
  {
    hide DagCompletion.GoodRun;
    hide KahnOrder;
    hide SequentialRun;
    hide Reliable;
    ReliableRunIsComplete(c.graph, s, trigger, results, inputs);
    DagCompletion.LimitOneIsSequential(c, acts, states, i);
  }

  /** Whoever is recorded has all its predecessors recorded before it, none of them failed. */
  lemma PredecessorsCameFirst(g: Graph, s: Setup, trigger: Output, results: seq<Result>, inputs: seq<Output>, j: nat,
                              u: Id)
    requires SequentialRun(s, KahnOrder(g), trigger, results, inputs)
    requires j < |results| && Edge(u, results[j].id) in g.edges
    ensures exists i :: 0 <= i < j && results[i].id == u && !results[i].status.Failed?
  {
    KahnCharacterized(g);
    var order := KahnOrder(g);
    hide KahnOrder;
    assert ResultIds(results)[j] == order[j];
    var e := Edge(u, order[j]);
    assert e.source in order[..j];
    var i :| 0 <= i < j && order[i] == u;
    assert ResultIds(results)[i] == order[i];
  }
}
