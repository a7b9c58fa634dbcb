/**
 * The concurrent scheduler as a state machine. A step is the code between two awaits: a turn of
 * the scheduling loop, the continuation of a node after one of its awaited calls, the timer, or a
 * compensation. Replies of the outside world (leases, stores, executors) arrive as actions.
 */
module DagState {
  import opened Seqs
  import opened Graphs
  import opened Kahn

  /** A Record<string, unknown>, values as JSON text. */
  type Output = map<string, string>

  datatype Entry = Entry(id: Id, output: Output)

  datatype Config = Config(
    graph: Graph,
    maxParallel: int,
    enableSaga: bool,
    hasIdempotencyStore: bool,
    hasTimeout: bool,
    trigger: Output,        // trigger payload plus the four reserved fields
    inherited: seq<Entry>,  // sharedState passed in by the caller
    saved: seq<Entry>       // completed checkpoints loaded on resume
  )

  datatype Status = Success | Failed | Paused | Skipped
  datatype Result = Result(id: Id, status: Status, output: Output)
  datatype SagaEntry = SagaEntry(id: Id, output: Output)

  /** Which awaited call a started node is suspended on. */
  datatype Phase =
    | Acquiring
    | Probing
    | Fetching
    | Executing
    | Marking(output: Output)
    | Releasing
    | Settling

  datatype Mode =
    | Deciding            // about to test the scheduling loop's guard
    | Admitting           // inside the inner loop; nothing else can run
    | Waiting(woken: bool)
    | Draining
    | Compensating(left: nat)
    | Ended

  datatype Failure = NoFailure | NodeFailure(id: Id) | TimedOut

  datatype Event =
    | DlqEntry(id: Id)
    | SagaCompensating(steps: nat)
    | NodeCompensating(id: Id)
    | NodeCompensated(id: Id)
    | ExecutionFailed(failure: Failure)
    | ExecutionCompleted

  /** taken and unlocked are history: ids shifted off the queue, ids whose edges were unlocked. */
  datatype Queue = Queue(ready: seq<Id>, deg: map<Id, int>, taken: seq<Id>, unlocked: seq<Id>)

  datatype State = State(
    mode: Mode,
    q: Queue,
    inFlight: set<Id>,
    active: map<Id, Phase>,
    results: seq<Result>,
    saga: seq<SagaEntry>,
    shared: seq<Entry>,
    failed: bool,
    failure: Failure,
    aborted: bool,
    events: seq<Event>
  )

  datatype Action =
    | LoopTurn                                        // one step of the scheduling loop
    | LeaseReply(id: Id, granted: bool)
    | ProbeReply(id: Id, hit: bool)
    | OutputReply(id: Id, output: Output)
    | ExecuteReply(id: Id, status: Status, output: Output)
    | MarkReply(id: Id)
    | ReleaseReply(id: Id)
    | Settle(id: Id)                                  // active.delete in the promise's then
    | Wake                                            // Promise.race resolves
    | Timeout
    | DrainDone
    | Compensate(ok: bool)

  // ── Shared state and gathered input ──────────────────────────────────────

  /** Map.set: an existing key keeps its place, a new one goes last. */
  function SetShared(shared: seq<Entry>, id: Id, output: Output): seq<Entry> {
    if shared == [] then [Entry(id, output)]
    else
      var n := |shared| - 1;
      if shared[n].id == id then shared[..n] + [Entry(id, output)]
      else if exists i :: 0 <= i < n && shared[i].id == id then SetShared(shared[..n], id, output) + [shared[n]]
      else shared + [Entry(id, output)]
  }

  function LoadSaved(shared: seq<Entry>, saved: seq<Entry>): seq<Entry> {
    if saved == [] then shared
    else
      var n := |saved| - 1;
      SetShared(LoadSaved(shared, saved[..n]), saved[n].id, saved[n].output)
  }

  function CompletedIds(c: Config): set<Id> {
    set e | e in c.saved :: e.id
  }

  function SavedOutput(saved: seq<Entry>, id: Id): Output {
    if saved == [] then map[]
    else if saved[|saved| - 1].id == id then saved[|saved| - 1].output
    else SavedOutput(saved[..|saved| - 1], id)
  }

  /** gatherInputs: the trigger fields, then every recorded output in map order, later ones winning. */
  function GatherInputs(trigger: Output, shared: seq<Entry>): Output {
    if shared == [] then trigger
    else GatherInputs(trigger, shared[..|shared| - 1]) + shared[|shared| - 1].output
  }

  // ── Steps ────────────────────────────────────────────────────────────────

  function Init(c: Config): State {
    State(Deciding, Queue(Seeds(c.graph), PendingMap(c.graph, {}), [], []), {}, map[], [], [],
          LoadSaved(c.inherited, c.saved), false, NoFailure, false, [])
  }

  predicate CanStart(c: Config, s: State) {
    c.maxParallel == 0 || |s.active| < c.maxParallel
  }

  function Decide(s: State): State {
    if !((s.q.ready != [] || s.active != map[]) && !s.failed) then s.(mode := Draining)
    else if s.aborted then s.(failed := true, failure := TimedOut, mode := Draining)
    else s.(mode := Admitting)
  }

  function TakeHead(q: Queue): Queue
    requires q.ready != []
  {
    q.(ready := q.ready[1..], taken := q.taken + [q.ready[0]])
  }

  function UnlockQueue(g: Graph, q: Queue, id: Id): Queue {
    var r := Relax(Relaxed(q.deg, q.ready), Successors(g.edges, id), NodeIds(g));
    q.(deg := r.deg, ready := r.queue, unlocked := q.unlocked + [id])
  }

  function AdmitHead(c: Config, s: State): State
    requires s.q.ready != []
  {
    var id := s.q.ready[0];
    var s1 := s.(q := TakeHead(s.q));
    if id in s.inFlight || id in CompletedIds(c) then s1
    else if s.aborted || s.failed then s1.(active := s.active[id := Settling])
    else s1.(inFlight := s.inFlight + {id}, active := s.active[id := Acquiring])
  }

  function LoopStep(c: Config, s: State): State {
    if s.mode.Deciding? then Decide(s)
    else if s.q.ready != [] && CanStart(c, s) then AdmitHead(c, s)
    else s.(mode := if s.active == map[] then Draining else Waiting(false))
  }

  function UnlockDownstream(c: Config, s: State, id: Id): State {
    if s.failed then s else s.(q := UnlockQueue(c.graph, s.q, id))
  }

  function Skip(c: Config, s: State, id: Id, output: Output): State {
    var s1 := s.(results := s.results + [Result(id, Skipped, output)]);
    var s2 := UnlockDownstream(c, s1, id);
    s2.(active := s2.active[id := Releasing])
  }

  function Finish(c: Config, s: State, id: Id, output: Output): State {
    var s1 := if c.enableSaga then s.(saga := s.saga + [SagaEntry(id, output)]) else s;
    var s2 := UnlockDownstream(c, s1, id);
    s2.(active := s2.active[id := Releasing])
  }

  function AfterLease(c: Config, s: State, id: Id, granted: bool): State {
    if !granted then s.(inFlight := s.inFlight - {id}, active := s.active[id := Settling])
    else if id in CompletedIds(c) then Skip(c, s, id, SavedOutput(c.saved, id))
    else s.(active := s.active[id := if c.hasIdempotencyStore then Probing else Executing])
  }

  function AfterOutput(c: Config, s: State, id: Id, output: Output): State {
    Skip(c, s.(shared := SetShared(s.shared, id, output)), id, output)
  }

  function AfterExecute(c: Config, s: State, id: Id, status: Status, output: Output): State {
    var s1 := s.(results := s.results + [Result(id, status, output)]);
    match status
    case Paused => s1.(active := s.active[id := Releasing])
    case Failed =>
      s1.(failed := true, failure := NodeFailure(id), events := s.events + [DlqEntry(id)],
          active := s.active[id := Releasing])
    case _ =>
      var s2 := s1.(shared := SetShared(s.shared, id, output));
      if c.hasIdempotencyStore then s2.(active := s.active[id := Marking(output)])
      else Finish(c, s2, id, output)
  }

  function End(s: State): State {
    s.(mode := Ended,
       events := s.events + [if s.failed then ExecutionFailed(s.failure) else ExecutionCompleted])
  }

  function AfterDrain(c: Config, s: State): State {
    if s.failed && c.enableSaga && s.saga != [] then
      s.(mode := Compensating(|s.saga|), events := s.events + [SagaCompensating(|s.saga|)])
    else End(s)
  }

  function AfterCompensate(s: State, ok: bool): State
    requires s.mode.Compensating? && s.mode.left <= |s.saga|
  {
    if s.mode.left == 0 then End(s)
    else
      var id := s.saga[s.mode.left - 1].id;
      s.(mode := Compensating(s.mode.left - 1),
         events := s.events + [NodeCompensating(id)] + (if ok then [NodeCompensated(id)] else []))
  }

  predicate IsIn(s: State, id: Id, p: Phase) {
    id in s.active && s.active[id] == p
  }

  /** A node's continuation can run only while the loop is suspended. */
  predicate Suspended(s: State) {
    s.mode.Waiting? || s.mode.Draining?
  }

  predicate Enabled(c: Config, s: State, a: Action) {
    match a
    case LoopTurn => s.mode.Deciding? || s.mode.Admitting?
    case LeaseReply(id, _) => Suspended(s) && IsIn(s, id, Acquiring)
    case ProbeReply(id, _) => Suspended(s) && IsIn(s, id, Probing)
    case OutputReply(id, _) => Suspended(s) && IsIn(s, id, Fetching)
    case ExecuteReply(id, status, _) => Suspended(s) && IsIn(s, id, Executing) && status != Skipped
    case MarkReply(id) => Suspended(s) && id in s.active && s.active[id].Marking?
    case ReleaseReply(id) => Suspended(s) && IsIn(s, id, Releasing)
    case Settle(id) => Suspended(s) && IsIn(s, id, Settling)
    case Wake => s.mode == Waiting(true)
    case Timeout => Suspended(s) && c.hasTimeout && !s.aborted
    case DrainDone => s.mode.Draining? && s.active == map[]
    case Compensate(_) => s.mode.Compensating? && s.mode.left <= |s.saga|
  }

  function Apply(c: Config, s: State, a: Action): State
    requires Enabled(c, s, a)
  {
    match a
    case LoopTurn => LoopStep(c, s)
    case LeaseReply(id, granted) => AfterLease(c, s, id, granted)
    case ProbeReply(id, hit) => s.(active := s.active[id := if hit then Fetching else Executing])
    case OutputReply(id, output) => AfterOutput(c, s, id, output)
    case ExecuteReply(id, status, output) => AfterExecute(c, s, id, status, output)
    case MarkReply(id) => Finish(c, s, id, s.active[id].output)
    case ReleaseReply(id) => s.(inFlight := s.inFlight - {id}, active := s.active[id := Settling])
    case Settle(id) => s.(active := s.active - {id}, mode := if s.mode.Waiting? then Waiting(true) else s.mode)
    case Wake => s.(mode := Deciding)
    case Timeout => s.(aborted := true)
    case DrainDone => AfterDrain(c, s)
    case Compensate(ok) => AfterCompensate(s, ok)
  }

  // ── Runs ─────────────────────────────────────────────────────────────────

  ghost predicate StepAt(c: Config, acts: seq<Action>, states: seq<State>, i: int)
    requires |states| == |acts| + 1 && 0 <= i < |acts|
  {
    Enabled(c, states[i], acts[i]) && states[i + 1] == Apply(c, states[i], acts[i])
  }

  ghost predicate StepsFrom(c: Config, s: State, acts: seq<Action>, states: seq<State>) {
    |states| == |acts| + 1 && states[0] == s && forall i :: 0 <= i < |acts| ==> StepAt(c, acts, states, i)
  }

  /** The states a finite sequence of actions passes through, in any interleaving. */
  ghost predicate IsRun(c: Config, acts: seq<Action>, states: seq<State>) {
    StepsFrom(c, Init(c), acts, states)
  }
}
