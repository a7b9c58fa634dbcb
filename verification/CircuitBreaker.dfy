/** The per-service circuit breaker, as a function of the calls it has seen. */
module CircuitBreaker {

  datatype Mode = Closed | Open | HalfOpen
  datatype Record = Record(failures: nat, lastFailure: int, mode: Mode)
  datatype Lookup = Absent | Present(record: Record)

  /** A call on one service, with the clock reading it takes (recordSuccess takes none). */
  datatype Call = CanExecute(now: int) | Success | Failure(now: int)

  datatype Breaker = Breaker(threshold: int, resetTimeout: int)

  // ── The transitions of one service's record ──────────────────────────────

  function Answer(b: Breaker, r: Lookup, now: int): bool {
    r.Absent? || !r.record.mode.Open? || now - r.record.lastFailure > b.resetTimeout
  }

  function AfterCanExecute(b: Breaker, r: Lookup, now: int): Lookup {
    if r.Present? && r.record.mode.Open? && now - r.record.lastFailure > b.resetTimeout
    then Present(r.record.(mode := HalfOpen)) else r
  }

  function AfterSuccess(): Lookup {
    Present(Record(0, 0, Closed))
  }

  function AfterFailure(b: Breaker, r: Lookup, now: int): Lookup {
    var was := if r.Present? then r.record else Record(0, 0, Closed);
    var failures := was.failures + 1;
    Present(Record(failures, now, if failures >= b.threshold then Open else was.mode))
  }

  function Step(b: Breaker, r: Lookup, call: Call): Lookup {
    match call
    case CanExecute(now) => AfterCanExecute(b, r, now)
    case Success => AfterSuccess()
    case Failure(now) => AfterFailure(b, r, now)
  }

  function Replay(b: Breaker, calls: seq<Call>): Lookup {
    if calls == [] then Absent
    else Step(b, Replay(b, calls[..|calls| - 1]), calls[|calls| - 1])
  }

  // ── The history's own account ────────────────────────────────────────────

  /** Failures since the last success. */
  function TrailingFailures(calls: seq<Call>): nat {
    if calls == [] then 0
    else
      match calls[|calls| - 1]
      case Success => 0
      case Failure(_) => TrailingFailures(calls[..|calls| - 1]) + 1
      case CanExecute(_) => TrailingFailures(calls[..|calls| - 1])
  }

  /** When the trailing run last failed; 0 when it is empty. */
  function LastFailure(calls: seq<Call>): int {
    if calls == [] then 0
    else
      match calls[|calls| - 1]
      case Success => 0
      case Failure(now) => now
      case CanExecute(_) => LastFailure(calls[..|calls| - 1])
  }

  /** Clock readings never go back. */
  ghost predicate Monotone(calls: seq<Call>, now: int) {
    calls == [] ||
    match calls[|calls| - 1]
    case Success => Monotone(calls[..|calls| - 1], now)
    case Failure(t) => t <= now && Monotone(calls[..|calls| - 1], t)
    case CanExecute(t) => t <= now && Monotone(calls[..|calls| - 1], t)
  }

  lemma {:induction false} MonotoneLater(calls: seq<Call>, t: int, now: int)
    requires Monotone(calls, t) && t <= now
    ensures Monotone(calls, now)
  {
    if calls != [] && calls[|calls| - 1].Success? {
      MonotoneLater(calls[..|calls| - 1], t, now);
    }
  }

  /** The stored record against the history; half-open only once the timeout has passed. */
  ghost predicate Agrees(b: Breaker, calls: seq<Call>, now: int) {
    var r := Replay(b, calls);
    var n := TrailingFailures(calls);
    match r
    case Absent => n == 0
    case Present(rec) =>
      && rec.failures == n
      && rec.lastFailure == LastFailure(calls)
      && (rec.mode.Closed? <==> n < b.threshold)
      && (rec.mode.HalfOpen? ==> now - rec.lastFailure > b.resetTimeout)
  }

  lemma {:induction false} RecordAgrees(b: Breaker, calls: seq<Call>, now: int)
    requires b.threshold >= 1 && Monotone(calls, now)
    ensures Agrees(b, calls, now)
  {
    if calls != [] {
      var rest := calls[..|calls| - 1];
      match calls[|calls| - 1]
      case Success => RecordAgrees(b, rest, now);
      case Failure(t) => RecordAgrees(b, rest, t);
      case CanExecute(t) => RecordAgrees(b, rest, t);
    }
  }

  /**
   * For every history with a monotone clock, a call is refused exactly when the trailing failure
   * run has reached the threshold and its last failure is no older than the timeout.
   */
  lemma RefusesExactlyWhenTripped(b: Breaker, calls: seq<Call>, now: int)
    requires b.threshold >= 1 && Monotone(calls, now)
    ensures !Answer(b, Replay(b, calls), now)
       <==> TrailingFailures(calls) >= b.threshold && now - LastFailure(calls) <= b.resetTimeout
  {
    RecordAgrees(b, calls, now);
  }

  function DropQueries(calls: seq<Call>): seq<Call> {
    if calls == [] then []
    else
      var rest := DropQueries(calls[..|calls| - 1]);
      if calls[|calls| - 1].CanExecute? then rest else rest + [calls[|calls| - 1]]
  }

  lemma {:induction false} DropQueriesKeepsRun(calls: seq<Call>, now: int)
    requires Monotone(calls, now)
    ensures TrailingFailures(DropQueries(calls)) == TrailingFailures(calls)
    ensures LastFailure(DropQueries(calls)) == LastFailure(calls)
    ensures Monotone(DropQueries(calls), now)
  {
    if calls != [] {
      var rest, last := calls[..|calls| - 1], calls[|calls| - 1];
      var t := if last.Success? then now else last.now;
      DropQueriesKeepsRun(rest, t);
      if last.CanExecute? {
        MonotoneLater(DropQueries(rest), t, now);
      } else {
        assert (DropQueries(rest) + [last])[..|DropQueries(rest)|] == DropQueries(rest);
      }
    }
  }

  /** The half-open marks that queries leave behind never change a later answer. */
  lemma HalfOpenIsUnobservable(b: Breaker, calls: seq<Call>, now: int)
    requires b.threshold >= 1 && Monotone(calls, now)
    ensures Answer(b, Replay(b, calls), now) == Answer(b, Replay(b, DropQueries(calls)), now)
  {
    DropQueriesKeepsRun(calls, now);
    RefusesExactlyWhenTripped(b, calls, now);
    RefusesExactlyWhenTripped(b, DropQueries(calls), now);
  }

  // ── The object ───────────────────────────────────────────────────────────

  class Circuits {
    var states: map<string, Record>
    const b: Breaker
    /** What each service has been asked, oldest first. */
    ghost var history: map<string, seq<Call>>

    ghost function CallsOf(service: string): seq<Call>
      reads this
    {
      if service in history then history[service] else []
    }

    function RecordOf(service: string): Lookup
      reads this
    {
      if service in states then Present(states[service]) else Absent
    }

    /** Every record is the replay of its own service's calls. */
    ghost predicate Valid()
      reads this
    {
      forall service :: RecordOf(service) == Replay(b, CallsOf(service))
    }

    constructor (threshold: int, resetTimeout: int)
      ensures Valid() && b == Breaker(threshold, resetTimeout) && history == map[]
    {
      states, history, b := map[], map[], Breaker(threshold, resetTimeout);
    }

    ghost method Log(service: string, call: Call)
      modifies this`history
      ensures history == old(history)[service := old(CallsOf(service)) + [call]]
      ensures CallsOf(service) == old(CallsOf(service)) + [call]
      ensures Replay(b, CallsOf(service)) == Step(b, Replay(b, old(CallsOf(service))), call)
    {
      var calls := CallsOf(service);
      history := history[service := calls + [call]];
      assert (calls + [call])[..|calls|] == calls;
    }

    method CanExecute(service: string, now: int) returns (ok: bool)
      requires Valid()
      modifies this
      ensures Valid() && history == old(history)[service := old(CallsOf(service)) + [Call.CanExecute(now)]]
      ensures ok == Answer(b, Replay(b, old(CallsOf(service))), now)
    {
      hide Replay;
      assert RecordOf(service) == Replay(b, CallsOf(service));
      ok := true;
      if service in states {
        var state := states[service];
        if state.mode.Open? {
          if now - state.lastFailure > b.resetTimeout {
            states := states[service := state.(mode := HalfOpen)];
          } else {
            ok := false;
          }
        }
      }
      Log(service, Call.CanExecute(now));
      forall other ensures RecordOf(other) == Replay(b, CallsOf(other)) {
        assert old(RecordOf(other)) == Replay(b, old(CallsOf(other)));
      }
    }

    method RecordSuccess(service: string)
      requires Valid()
      modifies this
      ensures Valid() && history == old(history)[service := old(CallsOf(service)) + [Success]]
    {
      hide Replay;
      states := states[service := Record(0, 0, Closed)];
      Log(service, Success);
      forall other ensures RecordOf(other) == Replay(b, CallsOf(other)) {
        assert old(RecordOf(other)) == Replay(b, old(CallsOf(other)));
      }
    }

    method RecordFailure(service: string, now: int)
      requires Valid()
      modifies this
      ensures Valid() && history == old(history)[service := old(CallsOf(service)) + [Failure(now)]]
    {
      hide Replay;
      assert RecordOf(service) == Replay(b, CallsOf(service));
      var was := if service in states then states[service] else Record(0, 0, Closed);
      var failures := was.failures + 1;
      states := states[service := Record(failures, now, if failures >= b.threshold then Open else was.mode)];
      Log(service, Failure(now));
      forall other ensures RecordOf(other) == Replay(b, CallsOf(other)) {
        assert old(RecordOf(other)) == Replay(b, old(CallsOf(other)));
      }
    }
  }
}
