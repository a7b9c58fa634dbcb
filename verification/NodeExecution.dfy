/** Running one node: attempts with backoff, and the bounded loop around them. */
module NodeExecution {
  import opened Seqs
  import opened Json
  import opened Backoff

  type Output = map<string, Json>

  /** What one executor call came to; a status other than success and a throw are both failures. */
  datatype Reply = Success(output: Output) | Failure(error: string)

  datatype Event =
    | Started(attempt: nat)
    | Completed
    | Failed(error: string, attempt: nat)
    | Retrying(attempt: nat, delayMs: int)

  datatype CheckpointStatus = Running | Succeeded | Errored
  datatype Checkpoint = Checkpoint(attempt: nat, status: CheckpointStatus)

  datatype Outcome = Outcome(success: bool, output: Output, error: Option<string>, attemptNumber: int, iterations: nat)

  // ── What a retry sequence is to do ───────────────────────────────────────

  /** One retry sequence: its policy and where it starts reading the executor's and the dice's answers. */
  datatype Job = Job(policy: RetryPolicy, replies: nat -> Reply, draws: nat -> real, firstCall: nat, firstDraw: nat)
  {
    function ReplyTo(attempt: nat): Reply
      requires attempt >= 1
    {
      replies(firstCall + attempt - 1)
    }

    function DelayAfter(attempt: nat): int
      requires attempt >= 1
    {
      ComputeBackoffDelay(policy, attempt, draws(firstDraw + attempt - 1))
    }
  }

  function AttemptEvents(job: Job, a: nat): seq<Event>
    requires a >= 1
  {
    [Started(a)]
    + match job.ReplyTo(a)
      case Success(_) => [Completed]
      case Failure(e) =>
        if a < job.policy.maxAttempts then [Failed(e, a), Retrying(a + 1, job.DelayAfter(a))] else [Failed(e, a)]
  }

  /** The events of attempts 1 to k. */
  function Trace(job: Job, k: nat): seq<Event> {
    if k == 0 then [] else Trace(job, k - 1) + AttemptEvents(job, k)
  }

  /** The sequence ends at its first success, or at the last attempt allowed. */
  predicate EndsAt(job: Job, k: nat) {
    && (forall a :: 1 <= a < k ==> job.ReplyTo(a).Failure?)
    && (k < job.policy.maxAttempts ==> k >= 1 && job.ReplyTo(k).Success?)
    && (k > 0 ==> k <= job.policy.maxAttempts)
  }

  predicate Succeeds(job: Job, k: nat) {
    k >= 1 && job.ReplyTo(k).Success?
  }

  /** How a sequence that ended without success is reported: by its last attempt's error. */
  predicate FailedAs(r: Outcome, job: Job, k: nat, hasExecutor: bool) {
    && !r.success && r.output == map[] && r.error.Some?
    && r.attemptNumber == (if hasExecutor then job.policy.maxAttempts else 1)
    && (!hasExecutor ==> r.error.value == "No executor registered")
    && (hasExecutor ==> if k == 0 then r.error.value == "Unknown error" else job.ReplyTo(k) == Failure(r.error.value))
  }

  function Resolved(job: Job, k: nat): (r: seq<Checkpoint>)
    ensures |r| == k
    ensures forall i :: 0 <= i < k ==> r[i].attempt == i + 1 && r[i].status != Running
    ensures forall i :: 0 <= i < k ==> (r[i].status == Succeeded <==> job.ReplyTo(i + 1).Success?)
  {
    if k == 0 then []
    else Resolved(job, k - 1) + [Checkpoint(k, if job.ReplyTo(k).Success? then Succeeded else Errored)]
  }

  /** The delays slept between attempts 1 to k. */
  function DelaySum(job: Job, k: nat): int {
    if k <= 1 then 0 else DelaySum(job, k - 1) + job.DelayAfter(k - 1)
  }

  // ── What every retry sequence keeps ──────────────────────────────────────

  function StartedAttempts(events: seq<Event>): seq<nat> {
    if events == [] then []
    else
      StartedAttempts(events[..|events| - 1])
      + (if events[|events| - 1].Started? then [events[|events| - 1].attempt] else [])
  }

  function UpTo(k: nat): (r: seq<nat>)
    ensures |r| == k && forall i :: 0 <= i < k ==> r[i] == i + 1
  {
    seq(k, i => i + 1)
  }

  lemma {:induction false} StartedConcat(a: seq<Event>, b: seq<Event>)
    ensures StartedAttempts(a + b) == StartedAttempts(a) + StartedAttempts(b)
  {
    if b == [] {
      assert a + b == a;
    } else {
      var n := |b| - 1;
      StartedConcat(a, b[..n]);
      assert (a + b)[..|a + b| - 1] == a + b[..n];
    }
  }

  lemma StartedOnce(job: Job, a: nat)
    requires a >= 1
    ensures StartedAttempts(AttemptEvents(job, a)) == [a]
    ensures forall i :: 0 <= i < |AttemptEvents(job, a)| && AttemptEvents(job, a)[i].Completed? ==>
              i == |AttemptEvents(job, a)| - 1 && job.ReplyTo(a).Success?
  {
    var events := AttemptEvents(job, a);
    assert StartedAttempts([Started(a)]) == [a] by { assert [Started(a)][..0] == []; }
    var rest := events[1..];
    assert events == [Started(a)] + rest;
    StartedConcat([Started(a)], rest);
    NoneStarted(rest);
  }

  lemma {:induction false} NoneStarted(events: seq<Event>)
    requires forall i :: 0 <= i < |events| ==> !events[i].Started?
    ensures StartedAttempts(events) == []
  {
    if events != [] {
      NoneStarted(events[..|events| - 1]);
    }
  }

  /** The attempts started are 1 to k, in this order. */
  lemma {:induction false} AttemptsAreConsecutive(job: Job, k: nat)
    ensures StartedAttempts(Trace(job, k)) == UpTo(k)
  {
    if k > 0 {
      AttemptsAreConsecutive(job, k - 1);
      StartedConcat(Trace(job, k - 1), AttemptEvents(job, k));
      StartedOnce(job, k);
      assert UpTo(k) == UpTo(k - 1) + [k];
    }
  }

  /** A sequence completes at most once, with its last event, and only when its last attempt succeeded. */
  lemma {:induction false} CompletesLast(job: Job, k: nat, i: nat)
    requires forall a :: 1 <= a < k ==> job.ReplyTo(a).Failure?
    requires i < |Trace(job, k)| && Trace(job, k)[i].Completed?
    ensures i == |Trace(job, k)| - 1 && Succeeds(job, k)
    decreases k
  {
    if k > 0 {
      var before, now := Trace(job, k - 1), AttemptEvents(job, k);
      StartedOnce(job, k);
      hide AttemptEvents;
      if i < |before| {
        CompletesLast(job, k - 1, i);
      } else {
        assert Trace(job, k)[i] == now[i - |before|];
      }
    }
  }

  /** The part of the trace that belongs to an attempt with others behind it. */
  predicate RetriedAt(job: Job, t: seq<Event>, a: nat)
    requires a >= 1
  {
    && 3 * a <= |t| && job.ReplyTo(a).Failure?
    && t[3 * a - 3] == Started(a)
    && t[3 * a - 2] == Failed(job.ReplyTo(a).error, a)
    && t[3 * a - 1] == Retrying(a + 1, job.DelayAfter(a))
  }

  lemma {:induction false} RetriedTrace(job: Job, k: nat)
    requires forall a :: 1 <= a <= k ==> job.ReplyTo(a).Failure?
    requires k < job.policy.maxAttempts
    ensures |Trace(job, k)| == 3 * k && forall a :: 1 <= a <= k ==> RetriedAt(job, Trace(job, k), a)
  {
    if k > 0 {
      RetriedTrace(job, k - 1);
      var before, now := Trace(job, k - 1), AttemptEvents(job, k);
      assert now == [Started(k), Failed(job.ReplyTo(k).error, k), Retrying(k + 1, job.DelayAfter(k))];
      hide AttemptEvents;
      hide ComputeBackoffDelay;
      forall a | 1 <= a <= k ensures RetriedAt(job, before + now, a) {
        if a < k {
          assert RetriedAt(job, before, a);
        }
      }
    }
  }

  /**
   * The whole trace: each attempt but the last is started, failed with its own error and announces the next
   * with the delay computed for it; the last is started and completes or fails.
   */
  lemma TraceIs(job: Job, k: nat)
    requires k >= 1 && EndsAt(job, k)
    ensures |Trace(job, k)| == 3 * k - 1
    ensures forall a :: 1 <= a < k ==> RetriedAt(job, Trace(job, k), a)
    ensures Trace(job, k)[3 * k - 3] == Started(k)
    ensures Trace(job, k)[3 * k - 2]
         == match job.ReplyTo(k) case Success(_) => Completed case Failure(e) => Failed(e, k)
  {
    RetriedTrace(job, k - 1);
    var before, now := Trace(job, k - 1), AttemptEvents(job, k);
    assert |now| == 2;
    hide AttemptEvents;
    hide ComputeBackoffDelay;
    forall a | 1 <= a < k ensures RetriedAt(job, before + now, a) {
      assert RetriedAt(job, before, a);
    }
  }

  function AnnouncedSum(events: seq<Event>): int {
    if events == [] then 0
    else
      var e := events[|events| - 1];
      AnnouncedSum(events[..|events| - 1]) + (if e.Retrying? then e.delayMs else 0)
  }

  lemma AnnouncedOne(events: seq<Event>, e: Event)
    ensures AnnouncedSum(events + [e]) == AnnouncedSum(events) + (if e.Retrying? then e.delayMs else 0)
  {
    assert (events + [e])[..|events|] == events;
  }

  lemma AnnouncedByAttempt(before: seq<Event>, job: Job, a: nat)
    requires a >= 1
    ensures AnnouncedSum(before + AttemptEvents(job, a)) == AnnouncedSum(before) +
              (if job.ReplyTo(a).Failure? && a < job.policy.maxAttempts then job.DelayAfter(a) else 0)
  {
    var now := AttemptEvents(job, a);
    hide AnnouncedSum;
    hide ComputeBackoffDelay;
    AnnouncedOne(before, now[0]);
    AnnouncedOne(before + [now[0]], now[1]);
    assert before + [now[0]] + [now[1]] == before + now[..2];
    if |now| == 3 {
      AnnouncedOne(before + now[..2], now[2]);
      assert before + now[..2] + [now[2]] == before + now;
    } else {
      assert now[..2] == now;
    }
  }

  /** What a finished sequence sleeps is what its events announce. */
  lemma {:induction false} SleepsAsAnnounced(job: Job, k: nat)
    requires forall a :: 1 <= a < k ==> job.ReplyTo(a).Failure?
    requires k <= Max(job.policy.maxAttempts)
    ensures AnnouncedSum(Trace(job, k)) == DelaySum(job, k) +
              (if k >= 1 && job.ReplyTo(k).Failure? && k < job.policy.maxAttempts then job.DelayAfter(k) else 0)
  {
    if k > 0 {
      SleepsAsAnnounced(job, k - 1);
      hide AttemptEvents;
      hide ComputeBackoffDelay;
      hide AnnouncedSum;
      AnnouncedByAttempt(Trace(job, k - 1), job, k);
    }
  }

  ghost predicate Dice(draws: nat -> real) {
    forall n :: 0.0 <= draws(n) < 1.0
  }

  /** All the sleeping between k attempts together. */
  lemma {:induction false} SleepBound(job: Job, k: nat)
    requires Sensible(job.policy) && Dice(job.draws)
    ensures 0 <= DelaySum(job, k) <= (if k == 0 then 0 else k - 1) * DelayBound(job.policy)
  {
    if k > 1 {
      SleepBound(job, k - 1);
      DelayBounds(job.policy, k - 1, job.draws(job.firstDraw + k - 2));
      hide ComputeBackoffDelay;
      hide DelayBound;
      var d := DelayBound(job.policy);
      TimesOneMore(k - 2, d);
    }
  }

  /** Every announced delay is within the bound, and without jitter they never shrink. */
  lemma AnnouncedDelays(job: Job, a: nat, b: nat)
    requires Sensible(job.policy) && Dice(job.draws) && 1 <= a <= b
    ensures 0 <= job.DelayAfter(a) <= DelayBound(job.policy)
    ensures job.policy.backoffFactor >= 1.0 && job.policy.jitter == 0.0 ==> job.DelayAfter(a) <= job.DelayAfter(b)
  {
    DelayBounds(job.policy, a, job.draws(job.firstDraw + a - 1));
    if job.policy.backoffFactor >= 1.0 && job.policy.jitter == 0.0 {
      DelaysNeverShrink(job.policy, a, b, job.draws(job.firstDraw + a - 1));
      Unjittered(job.policy, b, job.draws(job.firstDraw + a - 1));
      Unjittered(job.policy, b, job.draws(job.firstDraw + b - 1));
    }
  }

  // ── The runner ───────────────────────────────────────────────────────────

  /** replies and draws are the answers of the executor and of Math.random, call by call. */
  class NodeRun {
    const replies: nat -> Reply
    const draws: nat -> real
    const hasStore: bool
    var calls: nat
    var drawn: nat
    var slept: int
    var waited: real
    var events: seq<Event>
    var store: seq<Checkpoint>

    constructor (replies: nat -> Reply, draws: nat -> real, hasStore: bool)
      ensures this.replies == replies && this.draws == draws && this.hasStore == hasStore
      ensures calls == 0 && drawn == 0 && slept == 0 && waited == 0.0 && events == [] && store == []
    {
      this.replies, this.draws, this.hasStore := replies, draws, hasStore;
      calls, drawn, slept, waited, events, store := 0, 0, 0, 0.0, [], [];
    }

    function NextJob(policy: RetryPolicy): Job
      reads this`calls, this`drawn
    {
      Job(policy, replies, draws, calls, drawn)
    }

    function Totals(): Tally
      reads this`events, this`calls, this`slept
    {
      Tally(events, calls, slept)
    }

    method Save(attempt: nat) returns (id: nat)
      modifies this`store
      ensures store == old(store) + (if hasStore then [Checkpoint(attempt, Running)] else [])
      ensures hasStore ==> id == |old(store)|
    {
      id := |store|;
      if hasStore {
        store := store + [Checkpoint(attempt, Running)];
      }
    }

    /** A checkpoint is resolved while it is running, and so at most once. */
    method Resolve(id: nat, status: CheckpointStatus)
      requires hasStore ==> id < |store| && store[id].status == Running
      modifies this`store
      ensures store == if hasStore then old(store)[id := old(store)[id].(status := status)] else old(store)
    {
      if hasStore {
        store := store[id := store[id].(status := status)];
      }
    }

    method Call() returns (reply: Reply)
      modifies this`calls
      ensures calls == old(calls) + 1 && reply == replies(old(calls))
    {
      reply := replies(calls);
      calls := calls + 1;
    }

    method Pause(policy: RetryPolicy, attempt: nat)
      requires attempt >= 1
      modifies this`drawn, this`slept, this`events
      ensures drawn == old(drawn) + 1
      ensures slept == old(slept) + ComputeBackoffDelay(policy, attempt, draws(old(drawn)))
      ensures events == old(events) + [Retrying(attempt + 1, ComputeBackoffDelay(policy, attempt, draws(old(drawn))))]
    {
      var delay := ComputeBackoffDelay(policy, attempt, draws(drawn));
      drawn := drawn + 1;
      events := events + [Retrying(attempt + 1, delay)];
      slept := slept + delay;
    }

    /** Everything one attempt does, except pausing after it. */
    method Attempt(attempt: nat) returns (reply: Reply)
      requires attempt >= 1
      modifies this`calls, this`events, this`store
      ensures calls == old(calls) + 1 && reply == replies(old(calls))
      ensures events == old(events)
                        + [Started(attempt), if reply.Success? then Completed else Failed(reply.error, attempt)]
      ensures store == old(store) +
                (if hasStore then [Checkpoint(attempt, if reply.Success? then Succeeded else Errored)] else [])
    {
      events := events + [Started(attempt)];
      var id := Save(attempt);
      reply := Call();
      match reply {
        case Success(_) =>
          Resolve(id, Succeeded);
          events := events + [Completed];
        case Failure(e) =>
          Resolve(id, Errored);
          events := events + [Failed(e, attempt)];
      }
    }

    /** The state after k attempts of a job begun in the given state. */
    ghost predicate After(job: Job, k: nat, events0: seq<Event>, store0: seq<Checkpoint>, slept0: int)
      reads this
    {
      && calls == job.firstCall + k
      && drawn == job.firstDraw + (if k == 0 then 0 else k - 1)
      && events == events0 + Trace(job, k)
      && store == store0 + (if hasStore then Resolved(job, k) else [])
      && slept == slept0 + DelaySum(job, k)
    }

    method ExecuteWithRetries(policy: RetryPolicy, hasExecutor: bool) returns (r: Outcome, ghost k: nat)
      modifies this`calls, this`drawn, this`slept, this`events, this`store
      ensures !hasExecutor ==> k == 0 && !r.success
      ensures hasExecutor ==> EndsAt(old(NextJob(policy)), k)
      ensures After(old(NextJob(policy)), k, old(events), old(store), old(slept))
      ensures r.success <==> Succeeds(old(NextJob(policy)), k)
      ensures r.success ==> r == Outcome(true, old(NextJob(policy)).ReplyTo(k).output, None, k, 0)
      ensures !r.success ==> FailedAs(r, old(NextJob(policy)), k, hasExecutor)
    {
      ghost var job := NextJob(policy);
      k := 0;
      if !hasExecutor {
        return Outcome(false, map[], Some("No executor registered"), 1, 0), 0;
      }
      var lastError := None;
      var attempt := 1;
      while attempt <= policy.maxAttempts
        invariant attempt >= 1 && k == attempt - 1 && (k > 0 ==> k <= policy.maxAttempts)
        invariant forall a :: 1 <= a <= k ==> job.ReplyTo(a).Failure?
        invariant k < policy.maxAttempts ==> Ready(job, k, old(events), old(store), old(slept))
        invariant k >= policy.maxAttempts ==> After(job, k, old(events), old(store), old(slept))
        invariant if k == 0 then lastError == None else lastError.Some? && job.ReplyTo(k) == Failure(lastError.value)
        decreases policy.maxAttempts - attempt
      {
        var reply := TakeAttempt(job, attempt, old(events), old(store), old(slept), policy);
        k := attempt;
        if reply.Success? {
          return Outcome(true, reply.output, None, attempt, 0), k;
        }
        lastError := Some(reply.error);
        attempt := attempt + 1;
      }
      r := Outcome(false, map[], if lastError.Some? then lastError else Some("Unknown error"), policy.maxAttempts, 0);
    }

    /** Between attempts k and k + 1: the pause after attempt k is over. */
    ghost predicate Ready(job: Job, k: nat, events0: seq<Event>, store0: seq<Checkpoint>, slept0: int)
      reads this
    {
      && job == Job(job.policy, replies, draws, job.firstCall, job.firstDraw)
      && calls == job.firstCall + k && drawn == job.firstDraw + k
      && events == events0 + Trace(job, k)
      && store == store0 + (if hasStore then Resolved(job, k) else [])
      && slept == slept0 + DelaySum(job, k + 1)
    }

    method TakeAttempt(ghost job: Job, attempt: nat, ghost events0: seq<Event>, ghost store0: seq<Checkpoint>,
                       ghost slept0: int, policy: RetryPolicy) returns (reply: Reply)
      requires attempt >= 1 && job.policy == policy && attempt <= policy.maxAttempts
      requires Ready(job, attempt - 1, events0, store0, slept0)
      modifies this`calls, this`drawn, this`slept, this`events, this`store
      ensures reply == job.ReplyTo(attempt)
      ensures reply.Failure? && attempt < policy.maxAttempts ==> Ready(job, attempt, events0, store0, slept0)
      ensures reply.Success? || attempt == policy.maxAttempts ==> After(job, attempt, events0, store0, slept0)
    {
      reply := Attempt(attempt);
      if reply.Failure? && attempt < policy.maxAttempts {
        Pause(policy, attempt);
      }
    }

    // ── The bounded loop ─────────────────────────────────────────────────

    method Refuse(error: string) returns (r: Outcome)
      modifies this`events
      ensures events == old(events) + [Failed(error, 1)] && r == Outcome(false, map[], Some(error), 1, 0)
    {
      events := events + [Failed(error, 1)];
      r := Outcome(false, map[], Some(error), 1, 0);
    }

    /** log: the retry sequences run, outputs: what the successful ones returned. */
    method ExecuteBoundedLoop(loop: LoopConfig, cap: int, policy: RetryPolicy, hasExecutor: bool)
      returns (r: Outcome, ghost log: seq<Sequence>, ghost outputs: seq<Output>)
      modifies this`calls, this`drawn, this`slept, this`waited, this`events, this`store
      ensures !Admissible(loop, cap) ==>
                log == [] && !r.success && calls == old(calls) && store == old(store) && slept == old(slept)
                && exists error :: events == old(events) + [Failed(error, 1)]
      ensures Admissible(loop, cap) ==>
                && 1 <= |log| == r.iterations <= cap && More(loop, r.iterations - 1)
                && Adds(log, draws, old(Totals()), Totals())
                && Rounds(log, outputs, policy, hasExecutor, r.success) && Settled(old(store), store)
                && RunsOn(loop, outputs)
      ensures Admissible(loop, cap) && r.success ==>
                && |outputs| == r.iterations
                && (Stops(loop, outputs[|outputs| - 1]) || !More(loop, r.iterations))
                && r.output == outputs[|outputs| - 1]["_iterations" := Num(r.iterations as real)]
                && r.error == None && r.attemptNumber == 1
      ensures Admissible(loop, cap) && !r.success ==>
                FailedAs(r, log[|log| - 1].job, log[|log| - 1].attempts, hasExecutor)
      ensures Admissible(loop, cap) ==>
                waited == old(waited) + Waits(loop, r.iterations)
      ensures Admissible(loop, cap) ==> calls <= old(calls) + MostRounds(loop, cap) * Max(policy.maxAttempts)
      ensures Admissible(loop, cap) && Sensible(policy) && Dice(draws) ==>
                old(slept) <= slept <= old(slept) + |log| * (Max(policy.maxAttempts - 1) * DelayBound(policy))
    {
      log, outputs := [], [];
      if !loop.maxIterations.Finite? || loop.maxIterations.value <= 0.0 {
        r := Refuse("invalid maxIterations");
        return;
      }
      if loop.maxIterations.value > cap as real {
        r := Refuse("exceeds the iteration cap");
        return;
      }
      r, log, outputs := Iterate(loop, policy, hasExecutor);
      MoreBound(loop, r.iterations - 1);
      LoopCallBound(loop, cap, log, outputs, policy, hasExecutor, r.success);
      if Sensible(policy) && Dice(draws) {
        LoopSleepBound(log, outputs, policy, hasExecutor, r.success, draws);
      }
    }

    /** One retry sequence of the loop. */
    method Round(policy: RetryPolicy, hasExecutor: bool, ghost log: seq<Sequence>, ghost outputs: seq<Output>)
      returns (r: Outcome, ghost s: Sequence)
      requires Rounds(log, outputs, policy, hasExecutor, true)
      modifies this`calls, this`drawn, this`slept, this`events, this`store
      ensures events == old(events) + Trace(s.job, s.attempts) && calls == old(calls) + s.attempts
      ensures slept == old(slept) + DelaySum(s.job, s.attempts) && s.job.draws == draws
      ensures Rounds(log + [s], if r.success then outputs + [r.output] else outputs, policy, hasExecutor, r.success)
      ensures Settled(old(store), store)
      ensures !r.success ==> FailedAs(r, s.job, s.attempts, hasExecutor)
    {
      ghost var job := NextJob(policy);
      ghost var k;
      r, k := ExecuteWithRetries(policy, hasExecutor);
      s := Sequence(job, k);
      hide Trace;
      hide Succeeds;
      hide EndsAt;
      AttemptLimit(job, k, hasExecutor);
      RoundExtends(log, outputs, policy, hasExecutor, s, r.success, r.output);
    }

    method Iterate(loop: LoopConfig, policy: RetryPolicy, hasExecutor: bool)
      returns (r: Outcome, ghost log: seq<Sequence>, ghost outputs: seq<Output>)
      requires loop.maxIterations.Finite? && More(loop, 0)
      modifies this`calls, this`drawn, this`slept, this`waited, this`events, this`store
      ensures 1 <= |log| == r.iterations && More(loop, r.iterations - 1)
      ensures Adds(log, draws, old(Totals()), Totals())
      ensures Rounds(log, outputs, policy, hasExecutor, r.success) && Settled(old(store), store)
      ensures RunsOn(loop, outputs)
      ensures r.success ==>
                |outputs| == r.iterations && (Stops(loop, outputs[|outputs| - 1]) || !More(loop, r.iterations))
      ensures r.success ==>
                && r.output == outputs[|outputs| - 1]["_iterations" := Num(r.iterations as real)]
                && r.error == None && r.attemptNumber == 1
      ensures !r.success ==> FailedAs(r, log[|log| - 1].job, log[|log| - 1].attempts, hasExecutor)
      ensures waited == old(waited) + Waits(loop, r.iterations)
    {
      log, outputs := [], [];
      var lastOutput: Output := map[];
      var i := 0;
      var stopped := false;
      ghost var most := loop.maxIterations.value.Floor;
      WaitsStart(loop);
      LogStart(loop, policy, hasExecutor, draws, Totals());
      assert Settled(store, store);
      hide *;
      while !stopped && More(loop, i)
        invariant i == |log| == |outputs|
        invariant Adds(log, draws, old(Totals()), Totals())
        invariant Rounds(log, outputs, policy, hasExecutor, true)
        invariant Progress(loop, outputs, lastOutput, stopped)
        invariant Settled(old(store), store)
        invariant waited == old(waited) + Waits(loop, if !stopped && More(loop, i) then i + 1 else i)
        decreases most + 1 - i
      {
        ghost var s;
        ghost var stored, before := store, Totals();
        r, s := Round(policy, hasExecutor, log, outputs);
        SettledTwice(old(store), stored, store);
        LogExtends(log, s, draws, old(Totals()), before, Totals());
        log := log + [s];
        MoreBound(loop, i);
        i := i + 1;
        if !r.success {
          ProgressEnds(loop, outputs, lastOutput, stopped);
          FailedAfter(r, s, hasExecutor, i);
          return r.(iterations := i), log, outputs;
        }
        ProgressExtends(loop, outputs, lastOutput, r.output);
        lastOutput := r.output;
        outputs := outputs + [lastOutput];
        stopped := Stops(loop, lastOutput);
        PauseBetween(loop, i, stopped);
      }
      ProgressEnds(loop, outputs, lastOutput, stopped);
      r := Outcome(true, lastOutput["_iterations" := Num(i as real)], None, 1, i);
    }

    method PauseBetween(loop: LoopConfig, i: nat, stopped: bool)
      requires i >= 1
      modifies this`waited
      ensures waited == old(waited) + Waits(loop, if !stopped && More(loop, i) then i + 1 else i) - Waits(loop, i)
    {
      if !stopped && More(loop, i) {
        WaitsStep(loop, i);
        if loop.iterationDelayMs > 0.0 {
          waited := waited + loop.iterationDelayMs;
        }
      }
    }
  }

  lemma FailedAfter(r: Outcome, s: Sequence, hasExecutor: bool, i: nat)
    requires FailedAs(r, s.job, s.attempts, hasExecutor)
    ensures FailedAs(r.(iterations := i), s.job, s.attempts, hasExecutor) && !r.(iterations := i).success
  {
  }

  /** Between iterations: the last output decided whether the loop stops. */
  ghost predicate Progress(loop: LoopConfig, outputs: seq<Output>, lastOutput: Output, stopped: bool) {
    && RunsOn(loop, outputs)
    && (outputs == [] ==> !stopped && More(loop, 0))
    && (outputs != [] ==>
          && lastOutput == outputs[|outputs| - 1] && (stopped <==> Stops(loop, lastOutput))
          && More(loop, |outputs| - 1))
  }

  lemma ProgressExtends(loop: LoopConfig, outputs: seq<Output>, lastOutput: Output, output: Output)
    requires Progress(loop, outputs, lastOutput, false) && More(loop, |outputs|)
    ensures Progress(loop, outputs + [output], output, Stops(loop, output))
  {
    hide Stops;
  }

  lemma ProgressEnds(loop: LoopConfig, outputs: seq<Output>, lastOutput: Output, stopped: bool)
    requires Progress(loop, outputs, lastOutput, stopped)
    ensures RunsOn(loop, outputs)
    ensures outputs == [] ==> !stopped && More(loop, 0)
    ensures outputs != [] ==>
              && lastOutput == outputs[|outputs| - 1] && (stopped <==> Stops(loop, lastOutput))
              && More(loop, |outputs| - 1)
  {
  }

  lemma SettledTwice(a: seq<Checkpoint>, b: seq<Checkpoint>, c: seq<Checkpoint>)
    requires Settled(a, b) && Settled(b, c)
    ensures Settled(a, c)
  {
  }

  lemma LogStart(loop: LoopConfig, policy: RetryPolicy, hasExecutor: bool, draws: nat -> real, t: Tally)
    ensures Adds([], draws, t, t)
    ensures Rounds([], [], policy, hasExecutor, true) && (More(loop, 0) ==> Progress(loop, [], map[], false))
  {
  }

  lemma MoreBound(loop: LoopConfig, i: nat)
    requires loop.maxIterations.Finite? && More(loop, i)
    ensures i <= loop.maxIterations.value.Floor
  {
  }

  lemma AttemptLimit(job: Job, k: nat, hasExecutor: bool)
    requires if hasExecutor then EndsAt(job, k) else k == 0
    ensures k <= Max(job.policy.maxAttempts)
  {
  }

  lemma LogExtends(log: seq<Sequence>, s: Sequence, draws: nat -> real, start: Tally, before: Tally, now: Tally)
    requires Adds(log, draws, start, before) && s.job.draws == draws
    requires now.events == before.events + Trace(s.job, s.attempts) && now.calls == before.calls + s.attempts
    requires now.slept == before.slept + DelaySum(s.job, s.attempts)
    ensures Adds(log + [s], draws, start, now)
  {
    assert (log + [s])[..|log|] == log;
    hide Trace;
    Assoc(start.events, EventsOf(log), Trace(s.job, s.attempts));
  }

  lemma RoundExtends(log: seq<Sequence>, outputs: seq<Output>, policy: RetryPolicy, hasExecutor: bool, s: Sequence,
                     ok: bool, output: Output)
    requires Rounds(log, outputs, policy, hasExecutor, true)
    requires s.job.policy == policy && s.attempts <= Max(policy.maxAttempts)
    requires hasExecutor ==> EndsAt(s.job, s.attempts)
    requires ok <==> Succeeds(s.job, s.attempts)
    requires ok ==> Returned(s) == Some(output)
    ensures Rounds(log + [s], if ok then outputs + [output] else outputs, policy, hasExecutor, ok)
  {
    hide EndsAt;
    hide Succeeds;
  }

  lemma WaitsStart(loop: LoopConfig)
    ensures Waits(loop, 0) == 0.0 && Waits(loop, 1) == 0.0
  {
  }

  lemma WaitsStep(loop: LoopConfig, i: nat)
    requires i >= 1
    ensures Waits(loop, i + 1) == Waits(loop, i) + (if loop.iterationDelayMs > 0.0 then loop.iterationDelayMs else 0.0)
  {
    assert (i as real) == ((i - 1) as real) + 1.0;
  }

  // ── Bounded loops ────────────────────────────────────────────────────────

  datatype Limit = NotFinite | Finite(value: real)

  /** An empty key is as good as none. */
  datatype LoopConfig = LoopConfig(maxIterations: Limit, breakOnKey: string, continueCondition: string,
                                   iterationDelayMs: real)

  predicate Truthy(v: Json) {
    match v
    case Null => false
    case Bool(b) => b
    case Num(n) => n != 0.0
    case Str(s) => s != ""
    case _ => true
  }

  predicate HasTruthy(output: Output, key: string) {
    key in output && Truthy(output[key])
  }

  predicate Stops(loop: LoopConfig, output: Output) {
    || (loop.breakOnKey != "" && HasTruthy(output, loop.breakOnKey))
    || (loop.continueCondition != "" && !HasTruthy(output, loop.continueCondition))
  }

  predicate Admissible(loop: LoopConfig, cap: int) {
    loop.maxIterations.Finite? && 0.0 < loop.maxIterations.value <= cap as real
  }

  /** Checkpoints were only added, and none of them was left running. */
  ghost predicate Settled(before: seq<Checkpoint>, now: seq<Checkpoint>) {
    before <= now && forall i :: |before| <= i < |now| ==> now[i].status != Running
  }

  /** The loop's own test: after i iterations the limit allows another. */
  predicate More(loop: LoopConfig, i: nat) {
    loop.maxIterations.Finite? && (i as real) < loop.maxIterations.value
  }

  /** Only the last iteration's output may ask to stop. */
  ghost predicate RunsOn(loop: LoopConfig, outputs: seq<Output>) {
    forall i :: 0 <= i < |outputs| - 1 ==> !Stops(loop, outputs[i])
  }

  /** Pauses come between iterations. */
  function Waits(loop: LoopConfig, iterations: nat): real {
    if loop.iterationDelayMs > 0.0 && iterations > 0 then ((iterations - 1) as real) * loop.iterationDelayMs else 0.0
  }

  datatype Sequence = Sequence(job: Job, attempts: nat)

  function EventsOf(log: seq<Sequence>): seq<Event> {
    if log == [] then []
    else EventsOf(log[..|log| - 1]) + Trace(log[|log| - 1].job, log[|log| - 1].attempts)
  }

  function CallsOf(log: seq<Sequence>): nat {
    if log == [] then 0 else CallsOf(log[..|log| - 1]) + log[|log| - 1].attempts
  }

  function SleepOf(log: seq<Sequence>): int {
    if log == [] then 0 else SleepOf(log[..|log| - 1]) + DelaySum(log[|log| - 1].job, log[|log| - 1].attempts)
  }

  datatype Tally = Tally(events: seq<Event>, calls: nat, slept: int)

  /** What the sequences of the log have added, answered by these dice. */
  ghost predicate Adds(log: seq<Sequence>, draws: nat -> real, before: Tally, now: Tally) {
    && now.events == before.events + EventsOf(log)
    && now.calls == before.calls + CallsOf(log)
    && now.slept == before.slept + SleepOf(log)
    && forall i :: 0 <= i < |log| ==> log[i].job.draws == draws
  }

  /** What a successful sequence returned. */
  function Returned(s: Sequence): Option<Output> {
    if Succeeds(s.job, s.attempts) then Some(s.job.ReplyTo(s.attempts).output) else None
  }

  /** Every sequence ran to its end; all succeeded, except that the last failed unless allSucceeded. */
  ghost predicate Rounds(log: seq<Sequence>, outputs: seq<Output>, policy: RetryPolicy, hasExecutor: bool,
                         allSucceeded: bool) {
    && |log| == |outputs| + (if allSucceeded then 0 else 1)
    && (forall i :: 0 <= i < |log| ==> log[i].job.policy == policy && log[i].attempts <= Max(policy.maxAttempts))
    && (forall i :: 0 <= i < |log| && hasExecutor ==> EndsAt(log[i].job, log[i].attempts))
    && (forall i :: 0 <= i < |outputs| ==> Returned(log[i]) == Some(outputs[i]))
    && (!allSucceeded ==> Returned(log[|log| - 1]) == None)
  }

  function Max(n: int): nat {
    if n < 0 then 0 else n
  }

  lemma {:induction false} CallBound(log: seq<Sequence>, most: nat)
    requires forall i :: 0 <= i < |log| ==> log[i].attempts <= most
    ensures CallsOf(log) <= |log| * most
  {
    if log != [] {
      var n := |log| - 1;
      CallBound(log[..n], most);
      assert n * most + most == (n + 1) * most;
    }
  }

  /** maxIterations rounded up; a limit over the cap is refused. */
  function MostRounds(loop: LoopConfig, cap: int): nat
    requires Admissible(loop, cap)
  {
    -((-loop.maxIterations.value).Floor)
  }

  lemma RoundsBound(loop: LoopConfig, cap: int, n: nat)
    requires Admissible(loop, cap) && n >= 1 && More(loop, n - 1)
    ensures n <= MostRounds(loop, cap) <= cap
    ensures loop.maxIterations.value == loop.maxIterations.value.Floor as real ==>
              MostRounds(loop, cap) == loop.maxIterations.value.Floor
  {
  }

  /** An admissible loop makes at most min(maxIterations, cap) * maxAttempts executor calls. */
  lemma LoopCallBound(loop: LoopConfig, cap: int, log: seq<Sequence>, outputs: seq<Output>, policy: RetryPolicy,
                      hasExecutor: bool, ok: bool)
    requires Admissible(loop, cap) && Rounds(log, outputs, policy, hasExecutor, ok) && log != []
    requires More(loop, |log| - 1)
    ensures |log| <= MostRounds(loop, cap) <= cap
    ensures CallsOf(log) <= |log| * Max(policy.maxAttempts) <= MostRounds(loop, cap) * Max(policy.maxAttempts)
  {
    RoundsBound(loop, cap, |log|);
    CallBound(log, Max(policy.maxAttempts));
    TimesGrows(|log|, MostRounds(loop, cap), Max(policy.maxAttempts));
  }

  lemma TimesGrows(a: nat, b: nat, m: nat)
    requires a <= b
    ensures a * m <= b * m
  {
  }

  lemma {:induction false} SleepsBound(log: seq<Sequence>, most: int)
    requires forall i :: 0 <= i < |log| ==> 0 <= DelaySum(log[i].job, log[i].attempts) <= most
    ensures 0 <= SleepOf(log) <= |log| * most
  {
    if log != [] {
      var n := |log| - 1;
      SleepsBound(log[..n], most);
      hide DelaySum;
      TimesOneMore(n, most);
    }
  }

  lemma TimesOneMore(n: nat, most: int)
    ensures n * most + most == (n + 1) * most
  {
  }

  lemma BoundNotNegative(policy: RetryPolicy, draws: nat -> real)
    requires Sensible(policy) && Dice(draws)
    ensures DelayBound(policy) >= 0
  {
    DelayBounds(policy, 1, draws(0));
  }

  /** All the sleeping between the attempts of all iterations together. */
  lemma LoopSleepBound(log: seq<Sequence>, outputs: seq<Output>, policy: RetryPolicy, hasExecutor: bool, ok: bool,
                       draws: nat -> real)
    requires Rounds(log, outputs, policy, hasExecutor, ok) && (forall i :: 0 <= i < |log| ==> log[i].job.draws == draws)
    requires Sensible(policy) && Dice(draws)
    ensures 0 <= SleepOf(log) <= |log| * (Max(policy.maxAttempts - 1) * DelayBound(policy))
  {
    BoundNotNegative(policy, draws);
    var d, most := DelayBound(policy), Max(policy.maxAttempts - 1);
    hide DelayBound;
    forall i | 0 <= i < |log| ensures 0 <= DelaySum(log[i].job, log[i].attempts) <= most * d {
      var k := log[i].attempts;
      SleepBound(log[i].job, k);
      hide DelaySum;
      TimesGrows(if k == 0 then 0 else k - 1, most, d);
    }
    hide DelaySum;
    SleepsBound(log, most * d);
  }
}
