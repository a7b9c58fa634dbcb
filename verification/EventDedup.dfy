/**
 * The deduplicating event bus. Deliveries of one subscription interleave at the awaits around the
 * offset store and the handler; the in-flight set is shared, the store's replies are arbitrary.
 */
module EventDedup {
  import opened Seqs

  type EventId = string
  type Delivery = nat

  /** seen is history: whether the id was already marked when the read was issued. */
  datatype Phase =
    | Fresh
    | Dropped(id: EventId)
    | Checking(id: EventId, seen: bool)
    | Handling(id: EventId)
    | Storing(id: EventId)
    | Settled(id: EventId, rejected: bool)

  datatype ReadReply = ReadOk(processed: bool) | ReadError

  /** completions counts the handler calls that returned normally, per id. */
  datatype State = State(
    inFlight: set<EventId>,
    marked: set<EventId>,
    phases: map<Delivery, Phase>,
    completions: multiset<EventId>
  )

  datatype Action =
    | Deliver(d: Delivery, id: EventId)
    | Read(d: Delivery, reply: ReadReply)
    | Handled(d: Delivery, returned: bool)
    | Stored(d: Delivery, ok: bool, applied: bool)  // what is answered and what is kept are independent

  function PhaseOf(s: State, d: Delivery): Phase {
    if d in s.phases then s.phases[d] else Fresh
  }

  predicate InDispatch(p: Phase) {
    p.Checking? || p.Handling? || p.Storing?
  }

  predicate Dispatching(s: State, d: Delivery, id: EventId) {
    InDispatch(PhaseOf(s, d)) && PhaseOf(s, d).id == id
  }

  predicate Enabled(s: State, act: Action) {
    match act
    case Deliver(d, _) => PhaseOf(s, d).Fresh?
    case Read(d, _) => PhaseOf(s, d).Checking?
    case Handled(d, _) => PhaseOf(s, d).Handling?
    case Stored(d, _, _) => PhaseOf(s, d).Storing?
  }

  function To(s: State, d: Delivery, p: Phase): State {
    s.(phases := s.phases[d := p])
  }

  /** The finally block: forget the id, settle the promise. */
  function Leave(s: State, d: Delivery, id: EventId, rejected: bool): State {
    To(s.(inFlight := s.inFlight - {id}), d, Settled(id, rejected))
  }

  function Apply(failOpen: bool, s: State, act: Action): State
    requires Enabled(s, act)
  {
    match act
    case Deliver(d, id) =>
      if id in s.inFlight then To(s, d, Dropped(id))
      else To(s.(inFlight := s.inFlight + {id}), d, Checking(id, id in s.marked))
    case Read(d, reply) =>
      var id := PhaseOf(s, d).id;
      if reply.ReadError? && !failOpen then Leave(s, d, id, true)
      else if reply == ReadOk(true) then Leave(s, d, id, false)
      else To(s, d, Handling(id))
    case Handled(d, returned) =>
      var id := PhaseOf(s, d).id;
      if !returned then Leave(s, d, id, true)
      else To(s.(completions := s.completions + multiset{id}), d, Storing(id))
    case Stored(d, ok, applied) =>
      var id := PhaseOf(s, d).id;
      var s1 := if applied then s.(marked := s.marked + {id}) else s;
      Leave(s1, d, id, !ok && !failOpen)
  }

  const INIT := State({}, {}, map[], multiset{})

  ghost predicate IsRun(failOpen: bool, acts: seq<Action>, states: seq<State>) {
    && |states| == |acts| + 1 && states[0] == INIT
    && (forall i :: 0 <= i < |acts| ==>
          Enabled(states[i], acts[i]) && states[i + 1] == Apply(failOpen, states[i], acts[i]))
  }

  lemma RunLength(failOpen: bool, acts: seq<Action>, states: seq<State>)
    requires IsRun(failOpen, acts, states)
    ensures |states| == |acts| + 1
  {
    hide Enabled;
    hide Apply;
  }

  lemma StepOf(failOpen: bool, acts: seq<Action>, states: seq<State>, i: nat)
    requires IsRun(failOpen, acts, states) && i < |acts|
    ensures |states| == |acts| + 1 && Enabled(states[i], acts[i])
    ensures states[i + 1] == Apply(failOpen, states[i], acts[i])
  {
    hide Enabled;
    hide Apply;
  }

  lemma OtherDeliveries(failOpen: bool, s: State, act: Action)
    requires Enabled(s, act)
    ensures forall e: Delivery :: e != act.d ==> PhaseOf(Apply(failOpen, s, act), e) == PhaseOf(s, e)
    ensures PhaseOf(Apply(failOpen, s, act), act.d) == Apply(failOpen, s, act).phases[act.d]
  {
  }

  // ── One dispatch per id, whatever the store does ─────────────────────────

  ghost predicate FlightInv(s: State) {
    && (forall d: Delivery :: InDispatch(PhaseOf(s, d)) ==> PhaseOf(s, d).id in s.inFlight)
    && (forall d: Delivery, e: Delivery ::
          InDispatch(PhaseOf(s, d)) && InDispatch(PhaseOf(s, e)) && PhaseOf(s, d).id == PhaseOf(s, e).id ==> d == e)
    && (forall id :: id in s.inFlight ==> exists d: Delivery :: Dispatching(s, d, id))
  }

  lemma FlightStep(failOpen: bool, s: State, act: Action)
    requires FlightInv(s) && Enabled(s, act)
    ensures FlightInv(Apply(failOpen, s, act))
  {
    var s1 := Apply(failOpen, s, act);
    OtherDeliveries(failOpen, s, act);
    forall id | id in s1.inFlight ensures exists d: Delivery :: Dispatching(s1, d, id) {
      if id in s.inFlight {
        var d: Delivery :| Dispatching(s, d, id);
        assert Dispatching(s1, d, id);
      } else {
        assert Dispatching(s1, act.d, id);
      }
    }
  }

  lemma {:induction false} FlightInvariant(failOpen: bool, acts: seq<Action>, states: seq<State>, i: nat)
    requires IsRun(failOpen, acts, states) && i < |states|
    ensures FlightInv(states[i])
  {
    if i > 0 {
      FlightInvariant(failOpen, acts, states, i - 1);
      assert Enabled(states[i - 1], acts[i - 1]) && states[i - 1 + 1] == Apply(failOpen, states[i - 1], acts[i - 1]);
      hide Apply;
      hide FlightInv;
      FlightStep(failOpen, states[i - 1], acts[i - 1]);
    }
  }

  /** At most one delivery of an id is between its entry and its finally block. */
  lemma OneDispatchPerId(failOpen: bool, acts: seq<Action>, states: seq<State>, i: nat, d: Delivery, e: Delivery,
                         id: EventId)
    requires IsRun(failOpen, acts, states) && i < |states|
    requires Dispatching(states[i], d, id) && Dispatching(states[i], e, id)
    ensures d == e
  {
    FlightInvariant(failOpen, acts, states, i);
  }

  // ── At most one completion, when the store keeps what it is told ─────────

  /** How a store may misbehave: lose marks, overlook them, or fail to answer about them. */
  datatype Faults = Faults(lossy: bool, stale: bool, erring: bool)

  /**
   * A mark is kept unless the store is lossy, whatever it answers; a read issued after the mark reports
   * it, unless the store is stale or erring. Anything may be answered about an event not marked.
   */
  predicate Allowed(f: Faults, s: State, act: Action) {
    match act
    case Read(d, reply) =>
      PhaseOf(s, d).Checking? && PhaseOf(s, d).seen ==>
        reply == ReadOk(true) || (f.stale && reply == ReadOk(false)) || (f.erring && reply == ReadError)
    case Stored(_, _, applied) => applied || f.lossy
    case _ => true
  }

  /** Reads that fail are harmless unless the bus goes on without them. */
  predicate Harmless(failOpen: bool, f: Faults) {
    !f.lossy && !f.stale && !(f.erring && failOpen)
  }

  ghost predicate AllowedRun(failOpen: bool, f: Faults, acts: seq<Action>, states: seq<State>) {
    IsRun(failOpen, acts, states) && forall j :: 0 <= j < |acts| ==> Allowed(f, states[j], acts[j])
  }

  ghost predicate OnceInv(s: State) {
    && (forall id :: s.completions[id] <= 1)
    && (forall id :: s.completions[id] == 1 ==> id in s.marked || exists d: Delivery :: PhaseOf(s, d) == Storing(id))
    && (forall d: Delivery :: PhaseOf(s, d).Checking? ==> PhaseOf(s, d).seen == (PhaseOf(s, d).id in s.marked))
    && (forall d: Delivery :: PhaseOf(s, d).Handling? ==> PhaseOf(s, d).id !in s.marked)
  }

  lemma OnceStep(failOpen: bool, f: Faults, s: State, act: Action)
    requires FlightInv(s) && OnceInv(s) && Enabled(s, act) && Allowed(f, s, act) && Harmless(failOpen, f)
    ensures OnceInv(Apply(failOpen, s, act))
  {
    var s1 := Apply(failOpen, s, act);
    OtherDeliveries(failOpen, s, act);
    forall id | s1.completions[id] == 1 ensures id in s1.marked || exists d: Delivery :: PhaseOf(s1, d) == Storing(id) {
      if s.completions[id] == 1 && id !in s.marked {
        var d: Delivery :| PhaseOf(s, d) == Storing(id);
        assert act.d != d ==> PhaseOf(s1, d) == Storing(id);
      } else if id !in s.marked {
        assert PhaseOf(s1, act.d) == Storing(id);
      }
    }
    if act.Handled? && act.returned {
      HandlingIsFirst(s, act.d);
    }
  }

  /** A handler runs only for an id that has not completed. */
  lemma HandlingIsFirst(s: State, d: Delivery)
    requires FlightInv(s) && OnceInv(s) && PhaseOf(s, d).Handling?
    ensures s.completions[PhaseOf(s, d).id] == 0
  {
    var id := PhaseOf(s, d).id;
    forall e: Delivery ensures PhaseOf(s, e) != Storing(id) {
    }
  }

  lemma {:induction false} CompletesAtMostOnce(failOpen: bool, f: Faults, acts: seq<Action>, states: seq<State>, i: nat)
    requires AllowedRun(failOpen, f, acts, states) && Harmless(failOpen, f) && i < |states|
    ensures OnceInv(states[i]) && forall id :: states[i].completions[id] <= 1
  {
    if i > 0 {
      CompletesAtMostOnce(failOpen, f, acts, states, i - 1);
      FlightInvariant(failOpen, acts, states, i - 1);
      assert Enabled(states[i - 1], acts[i - 1]) && states[i - 1 + 1] == Apply(failOpen, states[i - 1], acts[i - 1]);
      assert Allowed(f, states[i - 1], acts[i - 1]);
      hide Apply;
      hide FlightInv;
      OnceStep(failOpen, f, states[i - 1], acts[i - 1]);
    }
  }

  // ── A throw is not the end of an event ───────────────────────────────────

  /** Whoever is marked, or about to be, has completed. */
  ghost predicate MarkedInv(s: State) {
    && (forall id :: id in s.marked ==> s.completions[id] >= 1)
    && (forall d: Delivery :: PhaseOf(s, d).Storing? ==> s.completions[PhaseOf(s, d).id] >= 1)
  }

  lemma MarkedStep(failOpen: bool, s: State, act: Action)
    requires MarkedInv(s) && Enabled(s, act)
    ensures MarkedInv(Apply(failOpen, s, act))
    ensures forall id :: s.completions[id] <= Apply(failOpen, s, act).completions[id]
  {
    var s1 := Apply(failOpen, s, act);
    OtherDeliveries(failOpen, s, act);
    forall d: Delivery | PhaseOf(s1, d).Storing? ensures s1.completions[PhaseOf(s1, d).id] >= 1 {
      assert d != act.d ==> PhaseOf(s, d).Storing?;
    }
  }

  /** Whatever the store does, no event is marked without a completed handler. */
  lemma {:induction false} MarkedMeansCompleted(failOpen: bool, acts: seq<Action>, states: seq<State>, i: nat)
    requires IsRun(failOpen, acts, states) && i < |states|
    ensures MarkedInv(states[i])
  {
    if i > 0 {
      MarkedMeansCompleted(failOpen, acts, states, i - 1);
      assert Enabled(states[i - 1], acts[i - 1]) && states[i - 1 + 1] == Apply(failOpen, states[i - 1], acts[i - 1]);
      hide Apply;
      hide MarkedInv;
      MarkedStep(failOpen, states[i - 1], acts[i - 1]);
    }
  }

  /** Reads fail or answer no more than the marks: an event is reported processed only if it was marked. */
  predicate Truthful(s: State, act: Action) {
    act.Read? && act.reply == ReadOk(true) && PhaseOf(s, act.d).Checking? ==> PhaseOf(s, act.d).id in s.marked
  }

  /** An event is skipped as already processed only when its handler has completed. */
  lemma SkippedOnlyIfCompleted(failOpen: bool, acts: seq<Action>, states: seq<State>, i: nat)
    requires IsRun(failOpen, acts, states) && i < |acts| && Truthful(states[i], acts[i])
    requires acts[i].Read? && acts[i].reply == ReadOk(true)
    ensures states[i].completions[PhaseOf(states[i], acts[i].d).id] >= 1
  {
    MarkedMeansCompleted(failOpen, acts, states, i);
    assert Enabled(states[i], acts[i]);
  }

  ghost predicate OfEvent(p: Phase, id: EventId) {
    !p.Fresh? && p.id == id
  }

  lemma OfEventStep(failOpen: bool, s: State, act: Action, d: Delivery, id: EventId)
    requires OfEvent(PhaseOf(s, d), id) && Enabled(s, act)
    ensures OfEvent(PhaseOf(Apply(failOpen, s, act), d), id)
  {
    OtherDeliveries(failOpen, s, act);
  }

  /** A delivery stays with its event. */
  lemma {:induction false} KeepsEvent(failOpen: bool, acts: seq<Action>, states: seq<State>, i: nat, j: nat,
                                      d: Delivery, id: EventId)
    requires IsRun(failOpen, acts, states) && i <= j < |states| && OfEvent(PhaseOf(states[i], d), id)
    ensures OfEvent(PhaseOf(states[j], d), id)
    decreases j
  {
    if i < j {
      KeepsEvent(failOpen, acts, states, i, j - 1, d, id);
      assert Enabled(states[j - 1], acts[j - 1]) && states[j - 1 + 1] == Apply(failOpen, states[j - 1], acts[j - 1]);
      hide Apply;
      OfEventStep(failOpen, states[j - 1], acts[j - 1], d, id);
    }
  }

  /**
   * As long as an event has not completed, every delivery of it that finds its id free is handled
   * once its read is answered, however often a handler threw before.
   */
  lemma UncompletedIsHandled(failOpen: bool, acts: seq<Action>, states: seq<State>, i: nat, j: nat, id: EventId)
    requires IsRun(failOpen, acts, states) && i < j < |acts|
    requires acts[i].Deliver? && acts[i].id == id && id !in states[i].inFlight
    requires acts[j].Read? && acts[j].d == acts[i].d && (acts[j].reply.ReadOk? || failOpen)
    requires Truthful(states[j], acts[j])
    requires states[j].completions[id] == 0
    ensures PhaseOf(states[j + 1], acts[i].d) == Handling(id)
  {
    var d := acts[i].d;
    assert Enabled(states[i], acts[i]) && states[i + 1] == Apply(failOpen, states[i], acts[i]);
    KeepsEvent(failOpen, acts, states, i + 1, j, d, id);
    MarkedMeansCompleted(failOpen, acts, states, j);
    assert Enabled(states[j], acts[j]) && states[j + 1] == Apply(failOpen, states[j], acts[j]);
  }

  /**
   * With a harmless store, a handler that throws leaves its event uncompleted, unmarked and free
   * for the next delivery: until some handler completes, such a delivery reaches the handler again.
   */
  lemma ThrownEventIsRedeliverable(failOpen: bool, f: Faults, acts: seq<Action>, states: seq<State>, k: nat, i: nat,
                                   j: nat, id: EventId)
    requires AllowedRun(failOpen, f, acts, states) && Harmless(failOpen, f) && k < i < j < |acts|
    requires Truthful(states[j], acts[j])
    requires acts[k].Handled? && !acts[k].returned && PhaseOf(states[k], acts[k].d) == Handling(id)
    requires acts[i].Deliver? && acts[i].id == id && acts[j].Read? && acts[j].d == acts[i].d
    requires acts[j].reply.ReadOk? || failOpen
    ensures states[k + 1].completions[id] == 0 && id !in states[k + 1].marked && id !in states[k + 1].inFlight
    ensures id in states[i].inFlight || states[j].completions[id] == 1
            || PhaseOf(states[j + 1], acts[i].d) == Handling(id)
  {
    FlightInvariant(failOpen, acts, states, k);
    CompletesAtMostOnce(failOpen, f, acts, states, k);
    HandlingIsFirst(states[k], acts[k].d);
    MarkedMeansCompleted(failOpen, acts, states, k);
    assert Enabled(states[k], acts[k]) && states[k + 1] == Apply(failOpen, states[k], acts[k]);
    CompletesAtMostOnce(failOpen, f, acts, states, j);
    hide Apply;
    hide MarkedInv;
    hide FlightInv;
    if id !in states[i].inFlight && states[j].completions[id] == 0 {
      UncompletedIsHandled(failOpen, acts, states, i, j, id);
    }
  }

  // ── One handler per event, whoever subscribed it ─────────────────────────

  lemma CompletionsGrow(failOpen: bool, s: State, act: Action, id: EventId)
    requires Enabled(s, act)
    ensures s.completions[id] <= Apply(failOpen, s, act).completions[id]
  {
  }

  lemma {:induction false} CompletionsStay(failOpen: bool, acts: seq<Action>, states: seq<State>, i: nat, j: nat,
                                           id: EventId)
    requires IsRun(failOpen, acts, states) && i <= j < |states|
    ensures states[i].completions[id] <= states[j].completions[id]
    decreases j
  {
    if i < j {
      CompletionsStay(failOpen, acts, states, i, j - 1, id);
      assert Enabled(states[j - 1], acts[j - 1]) && states[j - 1 + 1] == Apply(failOpen, states[j - 1], acts[j - 1]);
      hide *;
      CompletionsGrow(failOpen, states[j - 1], acts[j - 1], id);
    }
  }

  /** Once an event's handler has completed, it runs in no delivery again. */
  lemma NoHandlerAfterCompletion(failOpen: bool, f: Faults, acts: seq<Action>, states: seq<State>, i: nat, j: nat,
                                 id: EventId, e: Delivery)
    requires AllowedRun(failOpen, f, acts, states) && Harmless(failOpen, f) && i < j < |states|
    requires acts[i].Handled? && acts[i].returned && PhaseOf(states[i], acts[i].d) == Handling(id)
    ensures PhaseOf(states[j], e) != Handling(id)
  {
    assert Enabled(states[i], acts[i]) && states[i + 1] == Apply(failOpen, states[i], acts[i]);
    assert states[i + 1].completions[id] >= 1;
    CompletionsStay(failOpen, acts, states, i + 1, j, id);
    FlightInvariant(failOpen, acts, states, j);
    CompletesAtMostOnce(failOpen, f, acts, states, j);
    hide FlightInv;
    hide OnceInv;
    if PhaseOf(states[j], e) == Handling(id) {
      HandlingIsFirst(states[j], e);
    }
  }

  /**
   * Two subscriptions through one wrapper share its in-flight set and its consumer name: of all their
   * deliveries of one event a single one completes, so all but one subscription never handle it.
   */
  lemma OneHandlerPerEvent(failOpen: bool, f: Faults, acts: seq<Action>, states: seq<State>, i: nat, j: nat,
                           id: EventId)
    requires AllowedRun(failOpen, f, acts, states) && Harmless(failOpen, f) && i < |acts| && j < |acts|
    requires acts[i].Handled? && acts[i].returned && PhaseOf(states[i], acts[i].d) == Handling(id)
    requires acts[j].Handled? && acts[j].returned && PhaseOf(states[j], acts[j].d) == Handling(id)
    ensures i == j
  {
    if i < j {
      NoHandlerAfterCompletion(failOpen, f, acts, states, i, j, id, acts[j].d);
    } else if j < i {
      NoHandlerAfterCompletion(failOpen, f, acts, states, j, i, id, acts[i].d);
    }
  }

  // ── Exactly which faults let an event complete twice ─────────────────────

  /** One delivery, handled; ok is what the store answers to the mark, kept what becomes of it. */
  function Round(d: Delivery, id: EventId, reply: ReadReply, ok: bool, kept: bool): seq<Action> {
    [Deliver(d, id), Read(d, reply), Handled(d, true), Stored(d, ok, kept)]
  }

  /** The store may answer this way, and the bus goes on to the handler. */
  predicate Passes(failOpen: bool, f: Faults, seen: bool, reply: ReadReply, kept: bool) {
    && (reply == ReadOk(false) || (reply == ReadError && failOpen))
    && (seen ==> if reply.ReadError? then f.erring else f.stale)
    && (kept || f.lossy)
  }

  ghost predicate AllowedStep(failOpen: bool, f: Faults, s: State, act: Action, s1: State) {
    Enabled(s, act) && Allowed(f, s, act) && s1 == Apply(failOpen, s, act)
  }

  lemma RoundSteps(failOpen: bool, f: Faults, s: State, d: Delivery, id: EventId, reply: ReadReply, ok: bool,
                   kept: bool)
    returns (r: seq<State>)
    requires PhaseOf(s, d).Fresh? && id !in s.inFlight && Passes(failOpen, f, id in s.marked, reply, kept)
    ensures var acts := Round(d, id, reply, ok, kept);
            |r| == 5 && r[0] == s && forall i :: 0 <= i < 4 ==> AllowedStep(failOpen, f, r[i], acts[i], r[i + 1])
    ensures r[4].completions == s.completions + multiset{id} && id !in r[4].inFlight
    ensures r[4].marked == s.marked + (if kept then {id} else {})
    ensures forall x: Delivery :: x != d ==> PhaseOf(r[4], x) == PhaseOf(s, x)
  {
    var s1 := Apply(failOpen, s, Deliver(d, id));
    var s2 := Apply(failOpen, s1, Read(d, reply));
    var s3 := Apply(failOpen, s2, Handled(d, true));
    var s4 := Apply(failOpen, s3, Stored(d, ok, kept));
    r := [s, s1, s2, s3, s4];
  }

  /** In any run a fresh delivery of an event not in flight completes it once more, if the store lets it pass. */
  lemma CompletesAgain(failOpen: bool, f: Faults, acts: seq<Action>, states: seq<State>, d: Delivery, id: EventId,
                       reply: ReadReply, ok: bool, kept: bool) returns (after: seq<State>)
    requires AllowedRun(failOpen, f, acts, states)
    requires PhaseOf(states[|acts|], d).Fresh? && id !in states[|acts|].inFlight
    requires Passes(failOpen, f, id in states[|acts|].marked, reply, kept)
    ensures AllowedRun(failOpen, f, acts + Round(d, id, reply, ok, kept), after)
    ensures states <= after && |after| == |states| + 4
    ensures var s, e := states[|acts|], after[|acts| + 4];
            && e.completions == s.completions + multiset{id} && id !in e.inFlight
            && e.marked == s.marked + (if kept then {id} else {})
            && forall x: Delivery :: x != d ==> PhaseOf(e, x) == PhaseOf(s, x)
  {
    var n, round := |acts|, Round(d, id, reply, ok, kept);
    var r := RoundSteps(failOpen, f, states[n], d, id, reply, ok, kept);
    after := states + r[1..];
    GlueAt(states, r, n + 4);
    var all := acts + round;
    assert |round| == 4 && |all| == n + 4;
    hide Apply;
    hide Enabled;
    hide Allowed;
    hide PhaseOf;
    forall i | 0 <= i < |all|
      ensures Enabled(after[i], all[i]) && after[i + 1] == Apply(failOpen, after[i], all[i])
      ensures Allowed(f, after[i], all[i]) {
      GlueAt(states, r, i);
      GlueAt(states, r, i + 1);
      if i >= n {
        assert AllowedStep(failOpen, f, r[i - n], round[i - n], r[i - n + 1]);
      }
    }
  }

  /** A store that is not harmless lets every event complete twice, whatever it answers to the marks. */
  lemma FaultCompletesTwice(failOpen: bool, f: Faults, id: EventId, ok: bool)
    returns (acts: seq<Action>, states: seq<State>)
    requires !Harmless(failOpen, f)
    ensures AllowedRun(failOpen, f, acts, states) && states[|acts|].completions[id] == 2
  {
    assert AllowedRun(failOpen, f, [], [INIT]) && PhaseOf(INIT, 0).Fresh? && PhaseOf(INIT, 1).Fresh?;
    var again := if f.lossy || f.stale then ReadOk(false) else ReadError;
    hide AllowedRun;
    hide PhaseOf;
    var acts1 := Round(0, id, ReadOk(false), ok, !f.lossy);
    var acts2 := Round(1, id, again, ok, !f.lossy);
    assert [] + acts1 == acts1 && |acts1| == 4 && |acts2| == 4;
    hide Round;
    var states1 := CompletesAgain(failOpen, f, [], [INIT], 0, id, ReadOk(false), ok, !f.lossy);
    states := CompletesAgain(failOpen, f, acts1, states1, 1, id, again, ok, !f.lossy);
    acts := acts1 + acts2;
  }

  ghost predicate CompletesOnce(states: seq<State>) {
    forall i, id :: 0 <= i < |states| ==> states[i].completions[id] <= 1
  }

  /**
   * Over all runs no event completes twice if and only if the store keeps its marks, reports them, and
   * either always answers about them or the bus fails closed.
   */
  lemma CompletesOnceIffHarmless(failOpen: bool, f: Faults)
    ensures (forall acts, states: seq<State> :: AllowedRun(failOpen, f, acts, states) ==> CompletesOnce(states))
            <==> Harmless(failOpen, f)
  {
    if Harmless(failOpen, f) {
      forall acts, states: seq<State> | AllowedRun(failOpen, f, acts, states) ensures CompletesOnce(states) {
        forall i, id | 0 <= i < |states| ensures states[i].completions[id] <= 1 {
          CompletesAtMostOnce(failOpen, f, acts, states, i);
        }
      }
    } else {
      var acts, states := FaultCompletesTwice(failOpen, f, "", true);
      assert |states| == |acts| + 1;
      assert !CompletesOnce(states);
    }
  }

  // ── How a delivery ends, from the replies alone ──────────────────────────

  function Word(acts: seq<Action>, d: Delivery): seq<Action> {
    if acts == [] then []
    else Word(acts[..|acts| - 1], d) + (if acts[|acts| - 1].d == d then [acts[|acts| - 1]] else [])
  }

  /** The read let the delivery go on to the handler. */
  predicate GoesOn(failOpen: bool, reply: ReadReply) {
    reply == ReadOk(false) || (reply == ReadError && failOpen)
  }

  /** What a delivery has been through, by the phase it is in. */
  ghost predicate Said(failOpen: bool, w: seq<Action>, d: Delivery, p: Phase) {
    match p
    case Fresh => w == []
    case Dropped(id) => w == [Deliver(d, id)]
    case Checking(id, _) => w == [Deliver(d, id)]
    case Handling(id) => exists r :: GoesOn(failOpen, r) && w == [Deliver(d, id), Read(d, r)]
    case Storing(id) => exists r :: GoesOn(failOpen, r) && w == [Deliver(d, id), Read(d, r), Handled(d, true)]
    case Settled(id, rejected) => SettledBy(failOpen, w, d, id, rejected)
  }

  /** The five ways to settle: failed closed, skipped, thrown, marked, and the mark failed. */
  ghost predicate SettledBy(failOpen: bool, w: seq<Action>, d: Delivery, id: EventId, rejected: bool) {
    || (rejected && !failOpen && w == [Deliver(d, id), Read(d, ReadError)])
    || (!rejected && w == [Deliver(d, id), Read(d, ReadOk(true))])
    || (rejected && exists r :: GoesOn(failOpen, r) && w == [Deliver(d, id), Read(d, r), Handled(d, false)])
    || (exists r, ok, kept :: GoesOn(failOpen, r) && rejected == (!ok && !failOpen)
          && w == [Deliver(d, id), Read(d, r), Handled(d, true), Stored(d, ok, kept)])
  }

  lemma SaidStep(failOpen: bool, s: State, act: Action, w: seq<Action>)
    requires Enabled(s, act) && Said(failOpen, w, act.d, PhaseOf(s, act.d))
    ensures Said(failOpen, w + [act], act.d, PhaseOf(Apply(failOpen, s, act), act.d))
  {
    var d, s1 := act.d, Apply(failOpen, s, act);
    OtherDeliveries(failOpen, s, act);
    match act
    case Deliver(_, id) =>
    case Read(_, reply) =>
      assert w + [act] == [Deliver(d, PhaseOf(s, d).id), Read(d, reply)];
    case Handled(_, returned) =>
      var r :| GoesOn(failOpen, r) && w == [Deliver(d, PhaseOf(s, d).id), Read(d, r)];
      assert w + [act] == [Deliver(d, PhaseOf(s, d).id), Read(d, r), Handled(d, returned)];
    case Stored(_, ok, kept) =>
      var r :| GoesOn(failOpen, r) && w == [Deliver(d, PhaseOf(s, d).id), Read(d, r), Handled(d, true)];
      assert w + [act] == [Deliver(d, PhaseOf(s, d).id), Read(d, r), Handled(d, true), Stored(d, ok, kept)];
  }

  /** Every delivery goes through its replies in the order of the handler's awaits. */
  lemma {:induction false} DeliverySpeaksInOrder(failOpen: bool, acts: seq<Action>, states: seq<State>, i: nat,
                                                 d: Delivery)
    requires IsRun(failOpen, acts, states) && i < |states|
    ensures Said(failOpen, Word(acts[..i], d), d, PhaseOf(states[i], d))
  {
    hide *;
    RunLength(failOpen, acts, states);
    if i == 0 {
      FirstSaid(failOpen, acts, states, d);
    } else {
      DeliverySpeaksInOrder(failOpen, acts, states, i - 1, d);
      StepOf(failOpen, acts, states, i - 1);
      TakeStep(acts, i - 1);
      SaidOneMore(failOpen, states[i - 1], acts[i - 1], acts[..i - 1], d);
    }
  }

  lemma FirstSaid(failOpen: bool, acts: seq<Action>, states: seq<State>, d: Delivery)
    requires IsRun(failOpen, acts, states)
    ensures Said(failOpen, Word(acts[..0], d), d, PhaseOf(states[0], d))
  {
    hide Apply;
    hide Enabled;
  }

  lemma SaidOneMore(failOpen: bool, s: State, act: Action, before: seq<Action>, d: Delivery)
    requires Enabled(s, act) && Said(failOpen, Word(before, d), d, PhaseOf(s, d))
    ensures Said(failOpen, Word(before + [act], d), d, PhaseOf(Apply(failOpen, s, act), d))
  {
    hide *;
    WordSnoc(before, act, d);
    OtherDeliveries(failOpen, s, act);
    if act.d == d {
      SaidStep(failOpen, s, act, Word(before, d));
    }
  }

  lemma WordSnoc(acts: seq<Action>, act: Action, d: Delivery)
    ensures Word(acts + [act], d) == if act.d == d then Word(acts, d) + [act] else Word(acts, d)
  {
    assert (acts + [act])[..|acts|] == acts;
    assert Word(acts, d) + [] == Word(acts, d);
  }

  lemma {:induction false} WordMembers(acts: seq<Action>, d: Delivery, act: Action)
    ensures act in Word(acts, d) <==> act in acts && act.d == d
  {
    if acts != [] {
      var n := |acts| - 1;
      WordMembers(acts[..n], d, act);
      assert acts == acts[..n] + [acts[n]];
    }
  }

  /** What makes the wrapper's promise reject. */
  ghost predicate Rejecting(failOpen: bool, act: Action) {
    || (act.Handled? && !act.returned)
    || (!failOpen && act.Read? && act.reply == ReadError)
    || (!failOpen && act.Stored? && !act.ok)
  }

  lemma SettledMeans(failOpen: bool, w: seq<Action>, d: Delivery, id: EventId, rejected: bool)
    requires SettledBy(failOpen, w, d, id, rejected)
    ensures rejected <==> exists act :: act in w && Rejecting(failOpen, act)
  {
    assert w[|w| - 1] in w;
    assert rejected ==> Rejecting(failOpen, w[|w| - 1]);
    assert !rejected ==> forall k :: 0 <= k < |w| ==> !Rejecting(failOpen, w[k]);
  }

  /**
   * The bus that delivered an event sees a rejection if and only if the handler threw, or the wrapper
   * fails closed and the store failed to answer the read or the mark.
   */
  lemma RejectedIff(failOpen: bool, acts: seq<Action>, states: seq<State>, i: nat, d: Delivery, id: EventId,
                    rejected: bool)
    requires IsRun(failOpen, acts, states) && i < |states| && PhaseOf(states[i], d) == Settled(id, rejected)
    ensures rejected <==> exists act :: act in acts[..i] && act.d == d && Rejecting(failOpen, act)
  {
    DeliverySpeaksInOrder(failOpen, acts, states, i, d);
    var w := Word(acts[..i], d);
    assert SettledBy(failOpen, w, d, id, rejected);
    hide *;
    SettledMeans(failOpen, w, d, id, rejected);
    forall act ensures act in w <==> act in acts[..i] && act.d == d {
      WordMembers(acts[..i], d, act);
    }
  }

  /** A delivery is dropped if and only if its id was in flight when it arrived. */
  lemma DroppedIffInFlight(failOpen: bool, acts: seq<Action>, states: seq<State>, i: nat, j: nat)
    requires IsRun(failOpen, acts, states) && i < j < |states| && acts[i].Deliver?
    ensures PhaseOf(states[j], acts[i].d).Dropped? <==> acts[i].id in states[i].inFlight
  {
    var d := acts[i].d;
    assert Enabled(states[i], acts[i]) && states[i + 1] == Apply(failOpen, states[i], acts[i]);
    StaysDropped(failOpen, acts, states, i + 1, j, d);
  }

  lemma {:induction false} StaysDropped(failOpen: bool, acts: seq<Action>, states: seq<State>, i: nat, j: nat,
                                        d: Delivery)
    requires IsRun(failOpen, acts, states) && i <= j < |states| && !PhaseOf(states[i], d).Fresh?
    ensures !PhaseOf(states[j], d).Fresh? && (PhaseOf(states[j], d).Dropped? <==> PhaseOf(states[i], d).Dropped?)
    decreases j
  {
    hide *;
    RunLength(failOpen, acts, states);
    if i < j {
      StaysDropped(failOpen, acts, states, i, j - 1, d);
      StepOf(failOpen, acts, states, j - 1);
      DropStep(failOpen, states[j - 1], acts[j - 1], d);
    }
  }

  lemma DropStep(failOpen: bool, s: State, act: Action, d: Delivery)
    requires Enabled(s, act) && !PhaseOf(s, d).Fresh?
    ensures var p := PhaseOf(Apply(failOpen, s, act), d);
            !p.Fresh? && (p.Dropped? <==> PhaseOf(s, d).Dropped?)
  {
    OtherDeliveries(failOpen, s, act);
  }

  // ── The object ───────────────────────────────────────────────────────────

  /** The wrapper's code between awaits. s is the system the call happens in. */
  class DeduplicatingBus {
    var inFlight: set<EventId>
    const failOpen: bool

    constructor (failOpen: bool)
      ensures inFlight == INIT.inFlight && this.failOpen == failOpen
    {
      inFlight, this.failOpen := {}, failOpen;
    }

    method OnDeliver(d: Delivery, id: EventId, ghost s: State) returns (handling: bool)
      requires s.inFlight == inFlight && Enabled(s, Deliver(d, id))
      modifies this
      ensures inFlight == Apply(failOpen, s, Deliver(d, id)).inFlight
      ensures handling == PhaseOf(Apply(failOpen, s, Deliver(d, id)), d).Checking?
    {
      if id in inFlight {
        return false;
      }
      inFlight := inFlight + {id};
      return true;
    }

    method OnRead(d: Delivery, id: EventId, reply: ReadReply, ghost s: State) returns (next: Phase)
      requires s.inFlight == inFlight && Enabled(s, Read(d, reply)) && PhaseOf(s, d).id == id
      modifies this
      ensures inFlight == Apply(failOpen, s, Read(d, reply)).inFlight
      ensures next == PhaseOf(Apply(failOpen, s, Read(d, reply)), d)
    {
      var alreadyProcessed := false;
      match reply {
        case ReadOk(processed) => alreadyProcessed := processed;
        case ReadError =>
          if !failOpen {
            inFlight := inFlight - {id};
            return Settled(id, true);
          }
      }
      if alreadyProcessed {
        inFlight := inFlight - {id};
        return Settled(id, false);
      }
      return Handling(id);
    }

    method OnHandled(d: Delivery, id: EventId, returned: bool, ghost s: State) returns (next: Phase)
      requires s.inFlight == inFlight && Enabled(s, Handled(d, returned)) && PhaseOf(s, d).id == id
      modifies this
      ensures inFlight == Apply(failOpen, s, Handled(d, returned)).inFlight
      ensures next == PhaseOf(Apply(failOpen, s, Handled(d, returned)), d)
    {
      if !returned {
        inFlight := inFlight - {id};
        return Settled(id, true);
      }
      return Storing(id);
    }

    method OnStored(d: Delivery, id: EventId, ok: bool, applied: bool, ghost s: State) returns (next: Phase)
      requires s.inFlight == inFlight && Enabled(s, Stored(d, ok, applied)) && PhaseOf(s, d).id == id
      modifies this
      ensures inFlight == Apply(failOpen, s, Stored(d, ok, applied)).inFlight
      ensures next == PhaseOf(Apply(failOpen, s, Stored(d, ok, applied)), d)
    {
      inFlight := inFlight - {id};
      return Settled(id, !ok && !failOpen);
    }
  }
}
