/**
 * Node leases in Redis and the section they guard. Any number of activations of one (execution,
 * node) pair, from any workers, interleave over one Redis key and one idempotency store: SET NX PX,
 * the completion probe, the execution, the completion mark, and the two-step release (GET, DEL).
 */
module NodeLease {
  import opened Json
  import opened Seqs

  type WorkerId = string
  type Activation = nat

  /** setter is history: the activation whose SET created the value. */
  datatype Stamp = Stamp(value: WorkerId, expiresAt: int, setter: Activation)

  datatype Config = Config(
    ttl: int,
    worker: Activation -> WorkerId,  // activations of one process share a worker id
    exactAttempt: bool               // the store answers only for the attempt it is asked about
  )

  /** until: the lease object's own expiresAt, from the client clock before SET. */
  datatype Phase =
    | Idle
    | Requested(sentAt: int)
    | Denied
    | Held(until: int)
    | Missed(until: int)
    | Recorded(until: int, attempt: int)
    | Leaving(until: int)
    | Checked(until: int, mine: bool)
    | Released
    | Dead

  /** successes counts the success results pushed by all activations. */
  datatype State = State(
    now: int,
    key: Option<Stamp>,
    completed: set<int>,
    phases: map<Activation, Phase>,
    successes: nat
  )

  datatype Outcome = Succeeds(attempt: int) | DoesNot

  datatype Action =
    | Tick(ms: nat)
    | Begin(a: Activation)
    | SetNx(a: Activation)
    | Probe(a: Activation)
    | Execute(a: Activation, outcome: Outcome)
    | Mark(a: Activation)
    | Get(a: Activation)
    | Del(a: Activation)
    | Crash(a: Activation)

  // ── The key ──────────────────────────────────────────────────────────────

  predicate Live(key: Option<Stamp>, now: int) {
    key.Some? && now < key.value.expiresAt
  }

  function AfterSet(key: Option<Stamp>, now: int, value: WorkerId, ttl: int, setter: Activation): Option<Stamp> {
    if Live(key, now) then key else Some(Stamp(value, now + ttl, setter))
  }

  predicate Matches(key: Option<Stamp>, now: int, value: WorkerId) {
    Live(key, now) && key.value.value == value
  }

  // ── Steps ────────────────────────────────────────────────────────────────

  function PhaseOf(s: State, a: Activation): Phase {
    if a in s.phases then s.phases[a] else Idle
  }

  function To(s: State, a: Activation, p: Phase): State {
    s.(phases := s.phases[a := p])
  }

  predicate Hit(c: Config, s: State) {
    if c.exactAttempt then 1 in s.completed else s.completed != {}
  }

  predicate Enabled(s: State, act: Action) {
    match act
    case Tick(_) => true
    case Begin(a) => PhaseOf(s, a).Idle?
    case SetNx(a) => PhaseOf(s, a).Requested?
    case Probe(a) => PhaseOf(s, a).Held?
    case Execute(a, o) => PhaseOf(s, a).Missed? && (o.Succeeds? ==> o.attempt >= 1)
    case Mark(a) => PhaseOf(s, a).Recorded?
    case Get(a) => PhaseOf(s, a).Leaving?
    case Del(a) => PhaseOf(s, a).Checked?
    case Crash(a) => !PhaseOf(s, a).Released? && !PhaseOf(s, a).Dead?
  }

  function Apply(c: Config, s: State, act: Action): State
    requires Enabled(s, act)
  {
    match act
    case Tick(ms) => s.(now := s.now + ms)
    case Begin(a) => To(s, a, Requested(s.now))
    case SetNx(a) =>
      if Live(s.key, s.now) then To(s, a, Denied)
      else
        var s1 := s.(key := AfterSet(s.key, s.now, c.worker(a), c.ttl, a));
        To(s1, a, Held(PhaseOf(s, a).sentAt + c.ttl))
    case Probe(a) =>
      var until := PhaseOf(s, a).until;
      To(s, a, if Hit(c, s) then Leaving(until) else Missed(until))
    case Execute(a, outcome) =>
      var until := PhaseOf(s, a).until;
      if outcome.Succeeds? then To(s.(successes := s.successes + 1), a, Recorded(until, outcome.attempt))
      else To(s, a, Leaving(until))
    case Mark(a) => To(s.(completed := s.completed + {PhaseOf(s, a).attempt}), a, Leaving(PhaseOf(s, a).until))
    case Get(a) => To(s, a, Checked(PhaseOf(s, a).until, Matches(s.key, s.now, c.worker(a))))
    case Del(a) => To(if PhaseOf(s, a).mine then s.(key := None) else s, a, Released)
    case Crash(a) => To(s, a, Dead)
  }

  predicate InSection(p: Phase) {
    p.Held? || p.Missed? || p.Recorded? || p.Leaving? || p.Checked?
  }

  /** No activation is still inside when its own lease runs out. */
  ghost predicate Timely(s: State) {
    forall a: Activation :: InSection(PhaseOf(s, a)) ==> s.now < PhaseOf(s, a).until
  }

  function Init(now: int): State {
    State(now, None, {}, map[], 0)
  }

  ghost predicate IsRun(c: Config, acts: seq<Action>, states: seq<State>) {
    && |states| == |acts| + 1
    && states[0] == Init(states[0].now)
    && forall i :: 0 <= i < |acts| ==> Enabled(states[i], acts[i]) && states[i + 1] == Apply(c, states[i], acts[i])
  }

  ghost predicate TimelyRun(c: Config, acts: seq<Action>, states: seq<State>) {
    IsRun(c, acts, states) && forall i :: 0 <= i < |states| ==> Timely(states[i])
  }

  // ── The store object ─────────────────────────────────────────────────────

  /** The remote key and its clock, and what the store does to them between two awaits. */
  class RedisLeaseStore {
    var key: Option<Stamp>
    var now: int

    ghost predicate Agrees(s: State)
      reads this
    {
      key == s.key && now == s.now
    }

    constructor (now: int)
      ensures Agrees(Init(now))
    {
      key, this.now := None, now;
    }

    /** SET NX PX: granted exactly when the step of the protocol lets a in. */
    method TrySet(c: Config, a: Activation, ghost s: State) returns (ok: bool)
      requires Agrees(s) && Enabled(s, SetNx(a))
      modifies this
      ensures Agrees(Apply(c, s, SetNx(a)))
      ensures ok <==> PhaseOf(Apply(c, s, SetNx(a)), a).Held?
    {
      ok := key.None? || now >= key.value.expiresAt;
      if ok {
        key := Some(Stamp(c.worker(a), now + c.ttl, a));
      }
    }

    /** The first half of release: is the stored value the caller's own? */
    method ReadBack(c: Config, a: Activation, ghost s: State) returns (mine: bool)
      requires Agrees(s) && Enabled(s, Get(a))
      ensures Agrees(Apply(c, s, Get(a)))
      ensures PhaseOf(Apply(c, s, Get(a)), a) == Checked(PhaseOf(s, a).until, mine)
    {
      mine := key.Some? && now < key.value.expiresAt && key.value.value == c.worker(a);
    }

    /** The second half, decided by what the first half read, whatever is stored by now. */
    method Delete(c: Config, a: Activation, mine: bool, ghost s: State)
      requires Agrees(s) && Enabled(s, Del(a)) && PhaseOf(s, a).mine == mine
      modifies this
      ensures Agrees(Apply(c, s, Del(a)))
    {
      if mine {
        key := None;
      }
    }
  }

  // ── Exclusion ────────────────────────────────────────────────────────────

  ghost predicate LeaseInv(c: Config, s: State) {
    && (forall a: Activation :: InSection(PhaseOf(s, a)) ==>
          && s.key.Some? && s.key.value.setter == a && s.key.value.value == c.worker(a)
          && PhaseOf(s, a).until <= s.key.value.expiresAt)
    && (forall a: Activation :: PhaseOf(s, a).Requested? ==> PhaseOf(s, a).sentAt <= s.now)
    && (forall a: Activation :: PhaseOf(s, a).Checked? ==> PhaseOf(s, a).mine)
  }

  lemma LeaseStep(c: Config, s: State, act: Action)
    requires LeaseInv(c, s) && Timely(s) && Enabled(s, act)
    ensures LeaseInv(c, Apply(c, s, act))
  {
    var s1 := Apply(c, s, act);
    if !act.Tick? {
      forall b: Activation | b != act.a ensures PhaseOf(s1, b) == PhaseOf(s, b) {
      }
      assert PhaseOf(s1, act.a) == s1.phases[act.a];
    } else {
      assert forall b: Activation :: PhaseOf(s1, b) == PhaseOf(s, b);
    }
  }

  lemma {:induction false} LeaseInvariant(c: Config, acts: seq<Action>, states: seq<State>, i: nat)
    requires TimelyRun(c, acts, states) && i < |states|
    ensures LeaseInv(c, states[i])
  {
    if i > 0 {
      LeaseInvariant(c, acts, states, i - 1);
      assert Enabled(states[i - 1], acts[i - 1]) && states[i - 1 + 1] == Apply(c, states[i - 1], acts[i - 1]);
      hide Apply;
      hide LeaseInv;
      LeaseStep(c, states[i - 1], acts[i - 1]);
    }
  }

  /** At most one activation is inside at any moment. */
  lemma AtMostOneHolder(c: Config, acts: seq<Action>, states: seq<State>, i: nat, a: Activation, b: Activation)
    requires TimelyRun(c, acts, states) && i < |states|
    requires InSection(PhaseOf(states[i], a)) && InSection(PhaseOf(states[i], b))
    ensures a == b
  {
    LeaseInvariant(c, acts, states, i);
  }

  /** A DEL that is sent removes the sender's own, still live lease. */
  lemma ReleaseDeletesOwnLease(c: Config, acts: seq<Action>, states: seq<State>, i: nat)
    requires TimelyRun(c, acts, states) && i < |acts| && acts[i].Del?
    ensures Live(states[i].key, states[i].now) && states[i].key.value.setter == acts[i].a
    ensures states[i + 1].key == None
  {
    LeaseInvariant(c, acts, states, i);
    assert Enabled(states[i], acts[i]) && states[i + 1] == Apply(c, states[i], acts[i]);
  }

  // ── At most one success ──────────────────────────────────────────────────

  ghost predicate OnceInv(s: State) {
    && s.successes <= 1
    && (s.completed != {} ==> s.successes == 1)
    && (s.successes == 1 ==> s.completed != {} || exists a: Activation :: PhaseOf(s, a).Recorded?)
    && (forall a: Activation :: PhaseOf(s, a).Missed? ==> s.completed == {})
    && (forall a: Activation :: PhaseOf(s, a).Recorded? ==> s.successes == 1)
  }

  ghost predicate NoLostRecord(acts: seq<Action>, states: seq<State>) {
    |states| == |acts| + 1 &&
    forall i :: 0 <= i < |acts| && acts[i].Crash? ==> !PhaseOf(states[i], acts[i].a).Recorded?
  }

  lemma OnceStep(c: Config, s: State, act: Action)
    requires LeaseInv(c, s) && OnceInv(s) && Enabled(s, act) && (s.completed != {} ==> Hit(c, s))
    requires act.Crash? ==> !PhaseOf(s, act.a).Recorded?
    ensures OnceInv(Apply(c, s, act))
  {
    var s1 := Apply(c, s, act);
    if !act.Tick? {
      forall b: Activation | b != act.a ensures PhaseOf(s1, b) == PhaseOf(s, b) {
      }
      assert PhaseOf(s1, act.a) == s1.phases[act.a];
    } else {
      assert forall b: Activation :: PhaseOf(s1, b) == PhaseOf(s, b);
    }
  }

  /**
   * Whatever the interleaving and however many runners: if no holder outlives its lease, the store
   * reports a hit for any completed attempt, and no process dies between recording a success and
   * marking it, the node's success is recorded at most once.
   */
  lemma {:induction false} SuccessRecordedAtMostOnce(c: Config, acts: seq<Action>, states: seq<State>, i: nat)
    requires TimelyRun(c, acts, states) && NoLostRecord(acts, states) && !c.exactAttempt && i < |states|
    ensures OnceInv(states[i]) && states[i].successes <= 1
  {
    if i > 0 {
      SuccessRecordedAtMostOnce(c, acts, states, i - 1);
      LeaseInvariant(c, acts, states, i - 1);
      assert Enabled(states[i - 1], acts[i - 1]) && states[i - 1 + 1] == Apply(c, states[i - 1], acts[i - 1]);
      hide Apply;
      hide LeaseInv;
      OnceStep(c, states[i - 1], acts[i - 1]);
    }
  }

  // ── A store that answers for one attempt ─────────────────────────────────

  predicate IsSuccess(act: Action) {
    act.Execute? && act.outcome.Succeeds?
  }

  ghost predicate FirstSuccessOn(acts: seq<Action>, n: int) {
    forall j :: 0 <= j < |acts| && IsSuccess(acts[j]) && (forall k :: 0 <= k < j ==> !IsSuccess(acts[k]))
      ==> acts[j].outcome.attempt == n
  }

  /** Only attempt 1 is ever marked, so the exact answer is the general one. */
  ghost predicate OnFirstAttempt(s: State) {
    && s.completed <= {1}
    && forall a: Activation :: PhaseOf(s, a).Recorded? ==> PhaseOf(s, a).attempt == 1
  }

  lemma OnFirstAttemptStep(c: Config, s: State, act: Action)
    requires OnFirstAttempt(s) && Enabled(s, act) && (IsSuccess(act) ==> act.outcome.attempt == 1)
    ensures OnFirstAttempt(Apply(c, s, act))
  {
    var s1 := Apply(c, s, act);
    if !act.Tick? {
      forall b: Activation | b != act.a ensures PhaseOf(s1, b) == PhaseOf(s, b) {
      }
      assert PhaseOf(s1, act.a) == s1.phases[act.a];
    } else {
      assert forall b: Activation :: PhaseOf(s1, b) == PhaseOf(s, b);
    }
  }

  lemma MissedIsFirst(c: Config, s: State, a: Activation)
    requires LeaseInv(c, s) && OnceInv(s) && PhaseOf(s, a).Missed?
    ensures s.successes == 0
  {
    assert InSection(PhaseOf(s, a));
  }

  lemma SuccessesGrow(c: Config, s: State, act: Action)
    requires Enabled(s, act)
    ensures Apply(c, s, act).successes == s.successes + (if IsSuccess(act) then 1 else 0)
  {
  }

  /** Asked about attempt 1 only, it still keeps the success single if the first one is on attempt 1. */
  lemma {:induction false} ExactStoreRecordsOnce(c: Config, acts: seq<Action>, states: seq<State>, i: nat)
    requires TimelyRun(c, acts, states) && NoLostRecord(acts, states) && i < |states|
    requires c.exactAttempt && FirstSuccessOn(acts, 1)
    ensures OnceInv(states[i]) && OnFirstAttempt(states[i])
    ensures states[i].successes == 0 ==> forall k :: 0 <= k < i ==> !IsSuccess(acts[k])
  {
    if i > 0 {
      var s, act := states[i - 1], acts[i - 1];
      ExactStoreRecordsOnce(c, acts, states, i - 1);
      LeaseInvariant(c, acts, states, i - 1);
      assert Enabled(s, act) && states[i - 1 + 1] == Apply(c, s, act);
      if IsSuccess(act) {
        MissedIsFirst(c, s, act.a);
      }
      assert s.completed != {} ==> 1 in s.completed;
      hide Apply;
      hide LeaseInv;
      hide OnceInv;
      OnceStep(c, s, act);
      OnFirstAttemptStep(c, s, act);
      SuccessesGrow(c, s, act);
    }
  }

  // ── Each condition is needed ─────────────────────────────────────────────

  ghost predicate Steps(c: Config, acts: seq<Action>, states: seq<State>) {
    && |states| == |acts| + 1
    && forall i :: 0 <= i < |acts| ==> Enabled(states[i], acts[i]) && states[i + 1] == Apply(c, states[i], acts[i])
  }

  ghost predicate AllTimely(states: seq<State>) {
    forall i :: 0 <= i < |states| ==> Timely(states[i])
  }

  lemma JoinSteps(c: Config, acts1: seq<Action>, states1: seq<State>, acts2: seq<Action>, states2: seq<State>)
    requires Steps(c, acts1, states1) && Steps(c, acts2, states2) && states1[|acts1|] == states2[0]
    ensures Steps(c, acts1 + acts2, states1 + states2[1..])
    ensures AllTimely(states1) && AllTimely(states2) ==> AllTimely(states1 + states2[1..])
  {
    var acts, states := acts1 + acts2, states1 + states2[1..];
    hide Enabled;
    hide Apply;
    forall i | 0 <= i < |acts| ensures Enabled(states[i], acts[i]) && states[i + 1] == Apply(c, states[i], acts[i]) {
      if i >= |acts1| {
        var k := i - |acts1|;
        assert acts[i] == acts2[k] && states[i] == states2[k] && states[i + 1] == states2[k + 1];
      }
    }
  }

  ghost predicate NobodyInside(s: State) {
    forall a: Activation :: !InSection(PhaseOf(s, a))
  }

  /** One activation's whole passage through the section. */
  function Passage(a: Activation, attempt: int): seq<Action> {
    [Begin(a), SetNx(a), Probe(a), Execute(a, Succeeds(attempt)), Mark(a), Get(a), Del(a)]
  }

  /** Only a is inside, with time left. */
  ghost predicate OnlyInside(s: State, a: Activation) {
    && (forall b: Activation :: b != a ==> !InSection(PhaseOf(s, b)))
    && InSection(PhaseOf(s, a)) && s.now < PhaseOf(s, a).until
  }

  lemma EnterSteps(c: Config, s: State, a: Activation) returns (states: seq<State>)
    requires NobodyInside(s) && PhaseOf(s, a).Idle? && !Live(s.key, s.now) && !Hit(c, s) && c.ttl > 0
    ensures Steps(c, [Begin(a), SetNx(a), Probe(a)], states) && AllTimely(states) && states[0] == s
    ensures var e := states[3];
            && OnlyInside(e, a) && PhaseOf(e, a).Missed? && e.now == s.now && PhaseOf(e, a).until == s.now + c.ttl
            && e.key == Some(Stamp(c.worker(a), s.now + c.ttl, a))
            && e.completed == s.completed && e.successes == s.successes
            && forall b: Activation :: b != a ==> PhaseOf(e, b) == PhaseOf(s, b)
  {
    var s1 := Apply(c, s, Begin(a));
    var s2 := Apply(c, s1, SetNx(a));
    var s3 := Apply(c, s2, Probe(a));
    states := [s, s1, s2, s3];
    forall b: Activation | b != a ensures PhaseOf(s1, b) == PhaseOf(s2, b) == PhaseOf(s3, b) == PhaseOf(s, b) {
    }
  }

  lemma FinishSteps(c: Config, s: State, a: Activation, n: int) returns (states: seq<State>)
    requires OnlyInside(s, a) && PhaseOf(s, a).Missed? && n >= 1
    requires Matches(s.key, s.now, c.worker(a))
    ensures Steps(c, [Execute(a, Succeeds(n)), Mark(a), Get(a), Del(a)], states) && AllTimely(states) && states[0] == s
    ensures var e := states[4];
            && NobodyInside(e) && e.key == None && e.now == s.now
            && e.completed == s.completed + {n} && e.successes == s.successes + 1
            && forall b: Activation :: b != a ==> PhaseOf(e, b) == PhaseOf(s, b)
  {
    var s1 := Apply(c, s, Execute(a, Succeeds(n)));
    var s2 := Apply(c, s1, Mark(a));
    var s3 := Apply(c, s2, Get(a));
    var s4 := Apply(c, s3, Del(a));
    states := [s, s1, s2, s3, s4];
    forall b: Activation | b != a
      ensures PhaseOf(s1, b) == PhaseOf(s2, b) == PhaseOf(s3, b) == PhaseOf(s4, b) == PhaseOf(s, b) {
    }
  }

  lemma PassageSteps(c: Config, s: State, a: Activation, n: int) returns (states: seq<State>)
    requires NobodyInside(s) && PhaseOf(s, a).Idle? && !Live(s.key, s.now) && !Hit(c, s) && c.ttl > 0 && n >= 1
    ensures Steps(c, Passage(a, n), states) && AllTimely(states) && states[0] == s
    ensures var e := states[7];
            && NobodyInside(e) && e.key == None && e.completed == s.completed + {n} && e.successes == s.successes + 1
            && forall b: Activation :: b != a ==> PhaseOf(e, b) == PhaseOf(s, b)
  {
    var enter := EnterSteps(c, s, a);
    var finish := FinishSteps(c, enter[3], a, n);
    var acts1 := [Begin(a), SetNx(a), Probe(a)];
    var acts2 := [Execute(a, Succeeds(n)), Mark(a), Get(a), Del(a)];
    JoinSteps(c, acts1, enter, acts2, finish);
    assert acts1 + acts2 == Passage(a, n);
    states := enter + finish[1..];
    assert states[7] == finish[4];
  }

  lemma FreshActivation(s: State) returns (a: Activation)
    ensures PhaseOf(s, a).Idle?
  {
    a := Above(s.phases.Keys);
  }

  lemma {:induction false} Above(used: set<nat>) returns (n: nat)
    ensures forall m :: m in used ==> m < n
    decreases |used|
  {
    if used == {} {
      n := 0;
    } else {
      var m :| m in used;
      var k := Above(used - {m});
      n := if k <= m then m + 1 else k;
      assert forall x :: x in used ==> x == m || x in used - {m};
    }
  }

  /** Nobody dies, and every success is on attempt n. */
  ghost predicate PlainSteps(acts: seq<Action>, n: int) {
    forall k :: 0 <= k < |acts| ==> !acts[k].Crash? && (IsSuccess(acts[k]) ==> acts[k].outcome.attempt == n)
  }

  /** After any timely run that leaves nobody inside and the store without a hit, another success follows. */
  lemma AnotherSuccess(c: Config, acts: seq<Action>, states: seq<State>, n: int)
    returns (more: seq<Action>, after: seq<State>)
    requires TimelyRun(c, acts, states) && c.ttl > 0 && n >= 1
    requires NobodyInside(states[|acts|]) && !Hit(c, states[|acts|])
    ensures TimelyRun(c, acts + more, after) && states <= after && PlainSteps(more, n)
    ensures var s, e := states[|acts|], after[|acts + more|];
            NobodyInside(e) && e.completed == s.completed + {n} && e.successes == s.successes + 1
  {
    var s := states[|acts|];
    var wait := if Live(s.key, s.now) then s.key.value.expiresAt - s.now else 0;
    var s1 := Apply(c, s, Tick(wait));
    assert forall b: Activation :: PhaseOf(s1, b) == PhaseOf(s, b);
    var a := FreshActivation(s1);
    var passage := PassageSteps(c, s1, a, n);
    assert Steps(c, [Tick(wait)], [s, s1]) && AllTimely([s, s1]);
    hide Apply;
    hide Enabled;
    hide Timely;
    hide PhaseOf;
    JoinSteps(c, [Tick(wait)], [s, s1], Passage(a, n), passage);
    more := [Tick(wait)] + Passage(a, n);
    var behind := [s, s1] + passage[1..];
    JoinSteps(c, acts, states, more, behind);
    after := states + behind[1..];
    assert after[|acts + more|] == passage[7];
  }

  /** Keyed by the exact attempt, the store misses a success on a retry: it is recorded twice. */
  lemma ExactStoreRecordsTwice(c: Config, n: int) returns (acts: seq<Action>, states: seq<State>)
    requires c.exactAttempt && c.ttl > 0 && n >= 2
    ensures TimelyRun(c, acts, states) && PlainSteps(acts, n) && states[|acts|].successes == 2
  {
    hide PlainSteps;
    assert NobodyInside(Init(0));
    var acts1, states1 := AnotherSuccess(c, [], [Init(0)], n);
    assert [] + acts1 == acts1;
    var acts2, states2 := AnotherSuccess(c, acts1, states1, n);
    PlainConcat(acts1, acts2, n);
    acts, states := acts1 + acts2, states2;
  }

  lemma PlainConcat(a: seq<Action>, b: seq<Action>, n: int)
    requires PlainSteps(a, n) && PlainSteps(b, n)
    ensures PlainSteps(a + b, n)
  {
  }

  /** A run without a lost record whose first success is on attempt n. */
  ghost predicate RunFirstOn(c: Config, acts: seq<Action>, states: seq<State>, n: int) {
    TimelyRun(c, acts, states) && NoLostRecord(acts, states) && FirstSuccessOn(acts, n)
  }

  ghost predicate RecordsOnce(states: seq<State>) {
    forall i :: 0 <= i < |states| ==> states[i].successes <= 1
  }

  /** The store that answers only for attempt 1 keeps the success single if and only if that was the first. */
  lemma ExactStoreSafeIffFirstAttempt(c: Config, n: int)
    requires c.exactAttempt && c.ttl > 0 && n >= 1
    ensures (forall acts: seq<Action>, states: seq<State> ::
               RunFirstOn(c, acts, states, n) ==> RecordsOnce(states)) <==> n == 1
  {
    if n == 1 {
      forall acts: seq<Action>, states: seq<State> | RunFirstOn(c, acts, states, n) ensures RecordsOnce(states) {
        forall i | 0 <= i < |states| ensures states[i].successes <= 1 {
          ExactStoreRecordsOnce(c, acts, states, i);
        }
      }
    } else {
      var acts, states := ExactStoreRecordsTwice(c, n);
      assert RunFirstOn(c, acts, states, n);
    }
  }

  ghost predicate AttemptsUpTo(acts: seq<Action>, m: int) {
    forall k :: 0 <= k < |acts| && IsSuccess(acts[k]) ==> acts[k].outcome.attempt <= m
  }

  /** What the caller knows is how many attempts a node has: it is safe if and only if that is one. */
  lemma ExactStoreSafeIffOneAttempt(c: Config, m: int)
    requires c.exactAttempt && c.ttl > 0 && m >= 1
    ensures (forall acts: seq<Action>, states: seq<State> ::
               TimelyRun(c, acts, states) && NoLostRecord(acts, states) && AttemptsUpTo(acts, m)
               ==> RecordsOnce(states)) <==> m == 1
  {
    if m == 1 {
      forall acts: seq<Action>, states: seq<State> |
        TimelyRun(c, acts, states) && NoLostRecord(acts, states) && AttemptsUpTo(acts, m) ensures RecordsOnce(states) {
        forall j | 0 <= j < |acts| && IsSuccess(acts[j]) ensures acts[j].outcome.attempt == 1 {
          assert Enabled(states[j], acts[j]);
        }
        ExactStoreSafeIffFirstAttempt(c, 1);
        assert RunFirstOn(c, acts, states, 1);
      }
    } else {
      var acts, states := ExactStoreRecordsTwice(c, 2);
      assert AttemptsUpTo(acts, m) && NoLostRecord(acts, states);
    }
  }

  // ── A death before the mark ──────────────────────────────────────────────

  /** While the only success so far is unmarked, the store knows of none. */
  ghost predicate UnmarkedInv(s: State) {
    && (s.completed != {} ==> s.successes >= 1)
    && (forall a: Activation :: PhaseOf(s, a).Recorded? ==>
          s.successes >= 1 && (s.completed != {} ==> s.successes >= 2))
  }

  lemma UnmarkedStep(c: Config, s: State, act: Action)
    requires LeaseInv(c, s) && UnmarkedInv(s) && Enabled(s, act)
    ensures UnmarkedInv(Apply(c, s, act))
  {
    var s1 := Apply(c, s, act);
    if !act.Tick? {
      forall b: Activation | b != act.a ensures PhaseOf(s1, b) == PhaseOf(s, b) {
      }
      assert PhaseOf(s1, act.a) == s1.phases[act.a];
    } else {
      assert forall b: Activation :: PhaseOf(s1, b) == PhaseOf(s, b);
    }
  }

  lemma {:induction false} UnmarkedInvariant(c: Config, acts: seq<Action>, states: seq<State>, i: nat)
    requires TimelyRun(c, acts, states) && i < |states|
    ensures UnmarkedInv(states[i])
  {
    if i > 0 {
      UnmarkedInvariant(c, acts, states, i - 1);
      LeaseInvariant(c, acts, states, i - 1);
      assert Enabled(states[i - 1], acts[i - 1]) && states[i - 1 + 1] == Apply(c, states[i - 1], acts[i - 1]);
      hide Apply;
      hide LeaseInv;
      hide UnmarkedInv;
      UnmarkedStep(c, states[i - 1], acts[i - 1]);
    }
  }

  /** Any timely run whose first success dies before its mark goes on to a second success, on any attempt. */
  lemma DeathBeforeMarkRecordsTwice(c: Config, acts: seq<Action>, states: seq<State>, a: Activation, n: int)
    returns (more: seq<Action>, after: seq<State>)
    requires TimelyRun(c, acts, states) && c.ttl > 0 && n >= 1
    requires acts != [] && acts[|acts| - 1] == Crash(a) && PhaseOf(states[|acts| - 1], a).Recorded?
    requires states[|acts|].successes == 1
    ensures TimelyRun(c, acts + more, after) && states <= after && PlainSteps(more, n)
    ensures after[|acts + more|].successes == 2
  {
    var i := |acts| - 1;
    UnmarkedInvariant(c, acts, states, i);
    LeaseInvariant(c, acts, states, i);
    assert Enabled(states[i], acts[i]) && states[i + 1] == Apply(c, states[i], acts[i]);
    var s, e := states[i], states[|acts|];
    assert e == To(s, a, Dead);
    forall b: Activation ensures !InSection(PhaseOf(e, b)) {
      assert InSection(PhaseOf(s, a));
      assert b != a ==> PhaseOf(e, b) == PhaseOf(s, b);
    }
    assert e.completed == {};
    more, after := AnotherSuccess(c, acts, states, n);
  }

  /** There are such runs, whatever the time to live, the workers and the store. */
  lemma DeathCanStrike(c: Config, a: Activation, n: int) returns (acts: seq<Action>, states: seq<State>)
    requires c.ttl > 0 && n >= 1
    ensures TimelyRun(c, acts, states) && |acts| == 5 && acts[4] == Crash(a)
    ensures PhaseOf(states[4], a).Recorded? && states[5].successes == 1
  {
    var enter := EnterSteps(c, Init(0), a);
    var s3 := enter[3];
    var s4 := Apply(c, s3, Execute(a, Succeeds(n)));
    var s5 := Apply(c, s4, Crash(a));
    forall b: Activation | b != a ensures PhaseOf(s4, b) == PhaseOf(s5, b) == PhaseOf(s3, b) {
    }
    var acts1, acts2 := [Begin(a), SetNx(a), Probe(a)], [Execute(a, Succeeds(n)), Crash(a)];
    assert Steps(c, acts2, [s3, s4, s5]) && AllTimely([s3, s4, s5]);
    hide Apply;
    hide Enabled;
    JoinSteps(c, acts1, enter, acts2, [s3, s4, s5]);
    acts, states := acts1 + acts2, enter + [s3, s4, s5][1..];
    assert states[4] == s4 && states[5] == s5;
  }

  // ── A lease outlived ─────────────────────────────────────────────────────

  /** a runs its node to a failure and reads back its own lease. */
  lemma ReadBackSteps(c: Config, s: State, a: Activation) returns (states: seq<State>)
    requires OnlyInside(s, a) && PhaseOf(s, a).Missed? && Matches(s.key, s.now, c.worker(a))
    ensures Steps(c, [Execute(a, DoesNot), Get(a)], states) && states[0] == s
    ensures var e := states[2];
            && PhaseOf(e, a) == Checked(PhaseOf(s, a).until, true) && e.key == s.key && e.now == s.now
            && forall b: Activation :: b != a ==> PhaseOf(e, b) == PhaseOf(s, b)
  {
    var s1 := Apply(c, s, Execute(a, DoesNot));
    var s2 := Apply(c, s1, Get(a));
    states := [s, s1, s2];
    forall b: Activation | b != a ensures PhaseOf(s1, b) == PhaseOf(s2, b) == PhaseOf(s, b) {
    }
  }

  /** The lease of a runs out behind its GET, b enters, and a's DEL arrives. */
  lemma OvertakeSteps(c: Config, s: State, a: Activation, b: Activation) returns (states: seq<State>)
    requires a != b && PhaseOf(s, a).Checked? && PhaseOf(s, a).mine && PhaseOf(s, b).Idle? && c.ttl > 0
    requires s.key == Some(Stamp(c.worker(a), s.now + c.ttl, a))
    ensures Steps(c, [Tick(c.ttl), Begin(b), SetNx(b), Del(a)], states) && states[0] == s
    ensures InSection(PhaseOf(states[3], a)) && InSection(PhaseOf(states[3], b))
    ensures Live(states[3].key, states[3].now) && states[3].key.value == Stamp(c.worker(b), states[3].now + c.ttl, b)
    ensures states[4].key == None && PhaseOf(states[4], b).Held? && states[4].now < PhaseOf(states[4], b).until
    ensures states[4].now == s.now + c.ttl
  {
    var s1 := Apply(c, s, Tick(c.ttl));
    assert PhaseOf(s1, a) == PhaseOf(s, a) && PhaseOf(s1, b) == PhaseOf(s, b);
    var s2 := Apply(c, s1, Begin(b));
    var s3 := Apply(c, s2, SetNx(b));
    assert PhaseOf(s3, a) == PhaseOf(s2, a) == PhaseOf(s, a);
    var s4 := Apply(c, s3, Del(a));
    assert PhaseOf(s4, b) == PhaseOf(s3, b);
    states := [s, s1, s2, s3, s4];
  }

  /**
   * For every time to live and any two workers, the same or not: a holder that outlives its lease lets
   * a second one in, and its delete, decided by an earlier read, removes the second one's live lease.
   */
  lemma OverstayingBreaksExclusion(c: Config, a: Activation, b: Activation)
    returns (acts: seq<Action>, states: seq<State>)
    requires c.ttl > 0 && a != b
    ensures IsRun(c, acts, states) && |states| == 10 && acts[8] == Del(a)
    ensures InSection(PhaseOf(states[8], a)) && InSection(PhaseOf(states[8], b))
    ensures Live(states[8].key, states[8].now)
    ensures states[8].key.value.value == c.worker(b) && states[8].key.value.setter == b
    ensures states[9].key == None && PhaseOf(states[9], b).Held? && states[9].now < PhaseOf(states[9], b).until
    ensures states[0].now == 0 && states[9].now == c.ttl
  {
    var acts1, acts2 := [Begin(a), SetNx(a), Probe(a)], [Execute(a, DoesNot), Get(a)];
    var acts3 := [Tick(c.ttl), Begin(b), SetNx(b), Del(a)];
    var enter := EnterSteps(c, Init(0), a);
    var read := ReadBackSteps(c, enter[3], a);
    var overtake := OvertakeSteps(c, read[2], a, b);
    hide Apply;
    hide Enabled;
    hide PhaseOf;
    JoinSteps(c, acts1, enter, acts2, read);
    var states2 := enter + read[1..];
    assert states2[|acts1 + acts2|] == read[2];
    JoinSteps(c, acts1 + acts2, states2, acts3, overtake);
    acts, states := acts1 + acts2 + acts3, states2 + overtake[1..];
    assert acts[8] == acts3[3];
    assert states[8] == overtake[3] && states[9] == overtake[4];
  }

  // ── Exactly how long a holder may stay ───────────────────────────────────

  /** Whoever is inside asked for its lease less than d ago: what a caller can see to beforehand. */
  ghost predicate StaysWithin(c: Config, s: State, d: int) {
    forall a: Activation :: InSection(PhaseOf(s, a)) ==> s.now < PhaseOf(s, a).until - c.ttl + d
  }

  ghost predicate RunWithin(c: Config, acts: seq<Action>, states: seq<State>, d: int) {
    IsRun(c, acts, states) && forall i :: 0 <= i < |states| ==> StaysWithin(c, states[i], d)
  }

  ghost predicate Exclusive(states: seq<State>) {
    forall i, a: Activation, b: Activation ::
      0 <= i < |states| && InSection(PhaseOf(states[i], a)) && InSection(PhaseOf(states[i], b)) ==> a == b
  }

  ghost predicate DeletesOwn(acts: seq<Action>, states: seq<State>) {
    && |states| == |acts| + 1
    && forall i :: 0 <= i < |acts| && acts[i].Del? ==>
         Live(states[i].key, states[i].now) && states[i].key.value.setter == acts[i].a
  }

  lemma {:induction false} TimeGrows(c: Config, acts: seq<Action>, states: seq<State>, i: nat, j: nat)
    requires IsRun(c, acts, states) && i <= j < |states|
    ensures states[i].now <= states[j].now
    decreases j
  {
    if i < j {
      TimeGrows(c, acts, states, i, j - 1);
      assert Enabled(states[j - 1], acts[j - 1]) && states[j - 1 + 1] == Apply(c, states[j - 1], acts[j - 1]);
    }
  }

  /** Nobody asked before the start. */
  ghost predicate AskedSince(c: Config, s: State, start: int) {
    && start <= s.now
    && forall a: Activation ::
         && (PhaseOf(s, a).Requested? ==> start <= PhaseOf(s, a).sentAt)
         && (InSection(PhaseOf(s, a)) ==> start <= PhaseOf(s, a).until - c.ttl)
  }

  lemma AskedSinceStep(c: Config, s: State, act: Action, start: int)
    requires AskedSince(c, s, start) && Enabled(s, act)
    ensures AskedSince(c, Apply(c, s, act), start)
  {
    var s1 := Apply(c, s, act);
    if !act.Tick? {
      forall b: Activation | b != act.a ensures PhaseOf(s1, b) == PhaseOf(s, b) {
      }
      assert PhaseOf(s1, act.a) == s1.phases[act.a];
    } else {
      assert forall b: Activation :: PhaseOf(s1, b) == PhaseOf(s, b);
    }
  }

  lemma {:induction false} AskedSinceInvariant(c: Config, acts: seq<Action>, states: seq<State>, i: nat)
    requires IsRun(c, acts, states) && i < |states|
    ensures AskedSince(c, states[i], states[0].now)
  {
    if i > 0 {
      AskedSinceInvariant(c, acts, states, i - 1);
      assert Enabled(states[i - 1], acts[i - 1]) && states[i - 1 + 1] == Apply(c, states[i - 1], acts[i - 1]);
      hide Apply;
      hide AskedSince;
      AskedSinceStep(c, states[i - 1], acts[i - 1], states[0].now);
    }
  }

  lemma WithinIsTimely(c: Config, acts: seq<Action>, states: seq<State>, d: int)
    requires RunWithin(c, acts, states, d) && d <= c.ttl
    ensures TimelyRun(c, acts, states)
  {
    forall i | 0 <= i < |states| ensures Timely(states[i]) {
      assert StaysWithin(c, states[i], d);
    }
  }

  /** A run no longer than ttl keeps any bound above ttl. */
  lemma ShortRunStaysWithin(c: Config, acts: seq<Action>, states: seq<State>, d: int)
    requires IsRun(c, acts, states) && states[|acts|].now <= states[0].now + c.ttl && c.ttl < d
    ensures RunWithin(c, acts, states, d)
  {
    forall i | 0 <= i < |states| ensures StaysWithin(c, states[i], d) {
      AskedSinceInvariant(c, acts, states, i);
      TimeGrows(c, acts, states, i, |acts|);
    }
  }

  /** No two activations are ever inside together if and only if the time allowed is at most the lease's. */
  lemma ExclusiveIffWithinTtl(c: Config, d: int)
    requires c.ttl > 0
    ensures (forall acts: seq<Action>, states: seq<State> ::
               RunWithin(c, acts, states, d) ==> Exclusive(states)) <==> d <= c.ttl
  {
    if d <= c.ttl {
      forall acts: seq<Action>, states: seq<State> | RunWithin(c, acts, states, d) ensures Exclusive(states) {
        WithinIsTimely(c, acts, states, d);
        forall i, a: Activation, b: Activation |
          0 <= i < |states| && InSection(PhaseOf(states[i], a)) && InSection(PhaseOf(states[i], b)) ensures a == b {
          AtMostOneHolder(c, acts, states, i, a, b);
        }
      }
    } else {
      var acts, states := OverstayingBreaksExclusion(c, 0, 1);
      ShortRunStaysWithin(c, acts, states, d);
      assert !Exclusive(states);
    }
  }

  /** Likewise every delete removes the sender's own live lease. */
  lemma DeletesOwnIffWithinTtl(c: Config, d: int)
    requires c.ttl > 0
    ensures (forall acts: seq<Action>, states: seq<State> ::
               RunWithin(c, acts, states, d) ==> DeletesOwn(acts, states)) <==> d <= c.ttl
  {
    if d <= c.ttl {
      forall acts: seq<Action>, states: seq<State> | RunWithin(c, acts, states, d) ensures DeletesOwn(acts, states) {
        WithinIsTimely(c, acts, states, d);
        forall i | 0 <= i < |acts| && acts[i].Del?
          ensures Live(states[i].key, states[i].now) && states[i].key.value.setter == acts[i].a {
          ReleaseDeletesOwnLease(c, acts, states, i);
        }
      }
    } else {
      var acts, states := OverstayingBreaksExclusion(c, 0, 1);
      ShortRunStaysWithin(c, acts, states, d);
      assert acts[8].Del? && states[8].key.value.setter != acts[8].a;
    }
  }

  /** The lease of a runs out while it works, b enters, and both record a success. */
  lemma BothSucceedSteps(c: Config, s: State, a: Activation, b: Activation) returns (states: seq<State>)
    requires a != b && PhaseOf(s, a).Missed? && PhaseOf(s, b).Idle? && c.ttl > 0 && !Hit(c, s)
    requires s.key == Some(Stamp(c.worker(a), s.now + c.ttl, a))
    ensures Steps(c, [Tick(c.ttl), Begin(b), SetNx(b), Probe(b), Execute(b, Succeeds(1)), Execute(a, Succeeds(1))],
                  states)
    ensures states[0] == s && states[6].now == s.now + c.ttl && states[6].successes == s.successes + 2
  {
    var s1 := Apply(c, s, Tick(c.ttl));
    assert PhaseOf(s1, a) == PhaseOf(s, a) && PhaseOf(s1, b) == PhaseOf(s, b);
    var s2 := Apply(c, s1, Begin(b));
    var s3 := Apply(c, s2, SetNx(b));
    var s4 := Apply(c, s3, Probe(b));
    var s5 := Apply(c, s4, Execute(b, Succeeds(1)));
    assert PhaseOf(s5, a) == PhaseOf(s4, a) == PhaseOf(s3, a) == PhaseOf(s2, a) == PhaseOf(s, a);
    var s6 := Apply(c, s5, Execute(a, Succeeds(1)));
    states := [s, s1, s2, s3, s4, s5, s6];
  }

  lemma OverstayingRecordsTwice(c: Config, a: Activation, b: Activation) returns (acts: seq<Action>, states: seq<State>)
    requires c.ttl > 0 && a != b
    ensures IsRun(c, acts, states) && NoLostRecord(acts, states)
    ensures states[0].now == 0 && states[|acts|].now == c.ttl && states[|acts|].successes == 2
  {
    var acts1 := [Begin(a), SetNx(a), Probe(a)];
    var acts2 := [Tick(c.ttl), Begin(b), SetNx(b), Probe(b), Execute(b, Succeeds(1)), Execute(a, Succeeds(1))];
    var enter := EnterSteps(c, Init(0), a);
    var both := BothSucceedSteps(c, enter[3], a, b);
    hide Apply;
    hide Enabled;
    hide PhaseOf;
    JoinSteps(c, acts1, enter, acts2, both);
    acts, states := acts1 + acts2, enter + both[1..];
    assert states[9] == both[6];
    assert forall i :: 0 <= i < |acts| ==> !acts[i].Crash?;
  }

  /** With a store that answers for any attempt, and nobody dying, the same bound decides about the success. */
  lemma RecordsOnceIffWithinTtl(c: Config, d: int)
    requires c.ttl > 0 && !c.exactAttempt
    ensures (forall acts: seq<Action>, states: seq<State> ::
               RunWithin(c, acts, states, d) && NoLostRecord(acts, states) ==> RecordsOnce(states))
            <==> d <= c.ttl
  {
    if d <= c.ttl {
      forall acts: seq<Action>, states: seq<State> |
        RunWithin(c, acts, states, d) && NoLostRecord(acts, states) ensures RecordsOnce(states) {
        WithinIsTimely(c, acts, states, d);
        forall i | 0 <= i < |states| ensures states[i].successes <= 1 {
          SuccessRecordedAtMostOnce(c, acts, states, i);
        }
      }
    } else {
      var acts, states := OverstayingRecordsTwice(c, 0, 1);
      ShortRunStaysWithin(c, acts, states, d);
      assert !RecordsOnce(states);
    }
  }

  // ── Keys ─────────────────────────────────────────────────────────────────

  function LeaseKey(executionId: string, nodeId: string): string {
    executionId + ":" + nodeId
  }

  lemma FirstMark(first: string, mark: char, rest: string)
    requires mark !in first
    ensures var key := first + [mark] + rest;
            && key[|first|] == mark && (forall i :: 0 <= i < |first| ==> key[i] != mark)
            && key[..|first|] == first && key[|first| + 1..] == rest
  {
    var key := first + [mark] + rest;
    forall i | 0 <= i < |first| ensures key[i] != mark {
      assert key[i] == first[i] && first[i] in first;
    }
  }

  /** A part without the mark can be read back off the front. */
  lemma SplitAtMark(a: string, b: string, mark: char, x: string, y: string)
    requires mark !in a && mark !in b && a + [mark] + x == b + [mark] + y
    ensures a == b && x == y
  {
    FirstMark(a, mark, x);
    FirstMark(b, mark, y);
  }

  /** A string with the mark in it, cut there. */
  lemma CutAtMark(s: string, mark: char) returns (front: string, back: string)
    requires mark in s
    ensures s == front + [mark] + back
  {
    var i :| 0 <= i < |s| && s[i] == mark;
    front, back := s[..i], s[i + 1..];
  }

  /** How often the mark occurs in two parts joined by it. */
  lemma CountJoined(a: string, mark: char, b: string)
    ensures Count(a + [mark] + b, mark) == Count(a, mark) + 1 + Count(b, mark)
  {
    CountAppend(a, mark, mark);
    CountConcat(a + [mark], b, mark);
  }

  /** A lease key identifies its pair if and only if neither part carries a colon. */
  lemma LeaseKeyIdentifiesIff(e: string, n: string)
    ensures (forall f, m :: LeaseKey(f, m) == LeaseKey(e, n) ==> f == e && m == n) <==> ':' !in e && ':' !in n
  {
    if ':' in e {
      var front, back := CutAtMark(e, ':');
      assert LeaseKey(front, back + ":" + n) == LeaseKey(e, n);
      assert |front| < |e|;
    } else if ':' in n {
      var front, back := CutAtMark(n, ':');
      assert LeaseKey(e + ":" + front, back) == LeaseKey(e, n);
      assert |e + ":" + front| > |e|;
    } else {
      forall f, m | LeaseKey(f, m) == LeaseKey(e, n) ensures f == e && m == n {
        CountJoined(e, ':', n);
        CountJoined(f, ':', m);
        CountZero(e, ':');
        CountZero(n, ':');
        CountZero(f, ':');
        SplitAtMark(e, f, ':', n, m);
      }
    }
  }

  /** Within executions whose ids carry no colon, node ids may carry any. */
  lemma LeaseKeyInjective(e1: string, n1: string, e2: string, n2: string)
    requires ':' !in e1 && ':' !in e2
    ensures LeaseKey(e1, n1) == LeaseKey(e2, n2) <==> e1 == e2 && n1 == n2
  {
    if LeaseKey(e1, n1) == LeaseKey(e2, n2) {
      SplitAtMark(e1, e2, ':', n1, n2);
    }
  }

  datatype RunKey = RunKey(workflowId: string, executionId: string, nodeId: string, attempt: nat)

  function IdempotencyKey(k: RunKey): string {
    k.workflowId + "|" + (k.executionId + "|" + (k.nodeId + "|" + IndexKey(k.attempt)))
  }

  predicate PipeFree(k: RunKey) {
    '|' !in k.workflowId && '|' !in k.executionId && '|' !in k.nodeId
  }

  /** Two pipe-free tuples with one key are the same. */
  lemma PipeFreeKeysDiffer(a: RunKey, b: RunKey)
    requires PipeFree(a) && PipeFree(b) && IdempotencyKey(a) == IdempotencyKey(b)
    ensures a == b
  {
    hide IndexKey;
    SplitAtMark(a.workflowId, b.workflowId, '|', a.executionId + "|" + (a.nodeId + "|" + IndexKey(a.attempt)),
                b.executionId + "|" + (b.nodeId + "|" + IndexKey(b.attempt)));
    SplitAtMark(a.executionId, b.executionId, '|', a.nodeId + "|" + IndexKey(a.attempt),
                b.nodeId + "|" + IndexKey(b.attempt));
    SplitAtMark(a.nodeId, b.nodeId, '|', IndexKey(a.attempt), IndexKey(b.attempt));
    IndexKeyInjective(a.attempt, b.attempt);
  }

  /** A key holds three pipes more than its ids. */
  lemma PipesOfKey(k: RunKey)
    ensures Count(IdempotencyKey(k), '|') ==
              3 + Count(k.workflowId, '|') + Count(k.executionId, '|') + Count(k.nodeId, '|')
  {
    var number := IndexKey(k.attempt);
    assert '|' !in number;
    hide IndexKey;
    CountZero(number, '|');
    hide Count;
    CountJoined(k.nodeId, '|', number);
    CountJoined(k.executionId, '|', k.nodeId + "|" + number);
    CountJoined(k.workflowId, '|', k.executionId + "|" + (k.nodeId + "|" + number));
  }

  /** A tuple with a pipe in an id shares its key with another one. */
  lemma PipedKeyCollides(a: RunKey) returns (b: RunKey)
    requires !PipeFree(a)
    ensures b != a && IdempotencyKey(b) == IdempotencyKey(a)
  {
    hide IndexKey;
    var number := IndexKey(a.attempt);
    if '|' in a.workflowId {
      var front, back := CutAtMark(a.workflowId, '|');
      b := RunKey(front, back + "|" + a.executionId, a.nodeId, a.attempt);
      MoveMark(front, back, a.executionId, a.nodeId + "|" + number);
      assert |b.workflowId| < |a.workflowId|;
    } else if '|' in a.executionId {
      var front, back := CutAtMark(a.executionId, '|');
      b := RunKey(a.workflowId + "|" + front, back, a.nodeId, a.attempt);
      MoveMark(a.workflowId, front, back, a.nodeId + "|" + number);
      assert |b.workflowId| > |a.workflowId|;
    } else {
      var front, back := CutAtMark(a.nodeId, '|');
      b := RunKey(a.workflowId, a.executionId + "|" + front, back, a.attempt);
      MoveMark(a.executionId, front, back, number);
      assert |b.executionId| > |a.executionId|;
    }
  }

  /** Which of two neighbouring parts a middle belongs to cannot be seen. */
  lemma MoveMark(x: string, y: string, z: string, rest: string)
    ensures (x + "|" + y) + "|" + (z + "|" + rest) == x + "|" + ((y + "|" + z) + "|" + rest)
  {
  }

  /** The key identifies its tuple among all tuples if and only if none of its ids carries a pipe. */
  lemma KeyIdentifiesIffPipeFree(a: RunKey)
    ensures (forall b :: IdempotencyKey(b) == IdempotencyKey(a) ==> b == a) <==> PipeFree(a)
  {
    if PipeFree(a) {
      forall b | IdempotencyKey(b) == IdempotencyKey(a) ensures b == a {
        PipesOfKey(a);
        PipesOfKey(b);
        CountZero(a.workflowId, '|');
        CountZero(a.executionId, '|');
        CountZero(a.nodeId, '|');
        CountZero(b.workflowId, '|');
        CountZero(b.executionId, '|');
        CountZero(b.nodeId, '|');
        hide IdempotencyKey;
        PipeFreeKeysDiffer(b, a);
      }
    } else {
      var b := PipedKeyCollides(a);
    }
  }

  // ── The in-memory store ──────────────────────────────────────────────────

  datatype LeaseRecord = LeaseRecord(workerId: WorkerId, expiresAt: int)

  /** One store writes only its own worker id, so its acquire never finds a foreign lease. */
  class InMemoryLeaseStore {
    var leases: map<string, LeaseRecord>
    const workerId: WorkerId

    ghost predicate Valid()
      reads this
    {
      forall k :: k in leases ==> leases[k].workerId == workerId
    }

    constructor (workerId: WorkerId)
      ensures Valid() && this.workerId == workerId && leases == map[]
    {
      this.workerId, leases := workerId, map[];
    }

    method Acquire(executionId: string, nodeId: string, ttl: int, now: int) returns (granted: bool)
      requires Valid()
      modifies this
      ensures Valid() && granted
      ensures leases == old(leases)[LeaseKey(executionId, nodeId) := LeaseRecord(workerId, now + ttl)]
    {
      var key := LeaseKey(executionId, nodeId);
      if key in leases && leases[key].expiresAt > now && leases[key].workerId != workerId {
        return false;
      }
      leases := leases[key := LeaseRecord(workerId, now + ttl)];
      return true;
    }

    method Release(executionId: string, nodeId: string)
      requires Valid()
      modifies this
      ensures Valid() && leases == old(leases) - {LeaseKey(executionId, nodeId)}
    {
      var key := LeaseKey(executionId, nodeId);
      if key in leases && leases[key].workerId == workerId {
        leases := leases - {key};
      }
    }

    /** Exactly the expired records go. */
    method Cleanup(now: int)
      requires Valid()
      modifies this
      ensures Valid()
      ensures leases == map k | k in old(leases) && old(leases)[k].expiresAt > now :: old(leases)[k]
    {
      var todo := leases.Keys;
      while todo != {}
        invariant Valid() && todo <= leases.Keys <= old(leases).Keys
        invariant forall k :: k in leases ==> leases[k] == old(leases)[k]
        invariant forall k :: k in old(leases) && k !in todo ==> (k in leases <==> old(leases)[k].expiresAt > now)
        decreases |todo|
      {
        var k :| k in todo;
        todo := todo - {k};
        if leases[k].expiresAt <= now {
          leases := leases - {k};
        }
      }
    }
  }
}
