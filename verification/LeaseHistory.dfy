/** The lease protocol read off its past actions: who is let in, what a read answers, when a lease runs out. */
module LeaseHistory {
  import opened Seqs
  import opened NodeLease

  /** The i-th action is a DEL that is sent. */
  predicate Deletes(acts: seq<Action>, states: seq<State>, k: nat)
    requires k < |acts| && k < |states|
  {
    acts[k].Del? && PhaseOf(states[k], acts[k].a).Checked? && PhaseOf(states[k], acts[k].a).mine
  }

  predicate Grants(acts: seq<Action>, states: seq<State>, j: nat)
    requires j < |acts| && |states| == |acts| + 1
  {
    acts[j].SetNx? && PhaseOf(states[j + 1], acts[j].a).Held?
  }

  /** The grant of step j still stands at moment i: nothing was deleted since and its time is not over. */
  ghost predicate Stands(c: Config, acts: seq<Action>, states: seq<State>, j: nat, i: nat)
    requires i < |states| == |acts| + 1
  {
    && j < i && Grants(acts, states, j)
    && (forall k :: j < k < i ==> !Deletes(acts, states, k))
    && states[i].now < states[j].now + c.ttl
  }

  function StampOf(c: Config, acts: seq<Action>, states: seq<State>, j: nat): Stamp
    requires j < |acts| && j < |states| && acts[j].SetNx?
  {
    Stamp(c.worker(acts[j].a), states[j].now + c.ttl, acts[j].a)
  }

  /** What is stored and live is exactly what a standing grant wrote. */
  ghost predicate KeyTold(c: Config, acts: seq<Action>, states: seq<State>, i: nat)
    requires i < |states| == |acts| + 1
  {
    && (forall j: nat :: Stands(c, acts, states, j, i) ==> states[i].key == Some(StampOf(c, acts, states, j)))
    && (Live(states[i].key, states[i].now) ==> exists j: nat :: Stands(c, acts, states, j, i))
  }

  lemma RunStep(c: Config, acts: seq<Action>, states: seq<State>, i: nat)
    requires IsRun(c, acts, states) && i < |acts|
    ensures |states| == |acts| + 1 && Enabled(states[i], acts[i]) && states[i + 1] == Apply(c, states[i], acts[i])
  {
  }

  /** A step that neither grants nor deletes leaves the key alone, and only the clock can move. */
  lemma QuietStep(c: Config, acts: seq<Action>, states: seq<State>, i: nat)
    requires IsRun(c, acts, states) && i < |acts| && !Grants(acts, states, i) && !Deletes(acts, states, i)
    ensures states[i + 1].key == states[i].key && states[i + 1].now >= states[i].now
  {
    RunStep(c, acts, states, i);
  }

  lemma GrantStep(c: Config, acts: seq<Action>, states: seq<State>, i: nat)
    requires IsRun(c, acts, states) && i < |acts| && Grants(acts, states, i)
    ensures !Live(states[i].key, states[i].now) && states[i + 1].now == states[i].now
    ensures states[i + 1].key == Some(StampOf(c, acts, states, i))
  {
    RunStep(c, acts, states, i);
  }

  lemma DeleteStep(c: Config, acts: seq<Action>, states: seq<State>, i: nat)
    requires IsRun(c, acts, states) && i < |acts| && Deletes(acts, states, i)
    ensures states[i + 1].key == None
  {
    RunStep(c, acts, states, i);
  }

  lemma StandsBack(c: Config, acts: seq<Action>, states: seq<State>, j: nat, i: nat)
    requires IsRun(c, acts, states) && j < i < |acts| && states[i + 1].now >= states[i].now
    ensures Stands(c, acts, states, j, i + 1) <==>
              Stands(c, acts, states, j, i) && !Deletes(acts, states, i) && states[i + 1].now < states[j].now + c.ttl
  {
    hide Grants;
    hide Deletes;
    hide IsRun;
  }

  lemma StandsNow(c: Config, acts: seq<Action>, states: seq<State>, i: nat)
    requires |states| == |acts| + 1 && i < |acts|
    ensures Stands(c, acts, states, i, i + 1) <==>
              Grants(acts, states, i) && states[i + 1].now < states[i].now + c.ttl
  {
    hide Grants;
    hide Deletes;
  }

  lemma ToldAfterGrant(c: Config, acts: seq<Action>, states: seq<State>, i: nat)
    requires IsRun(c, acts, states) && i < |acts| && KeyTold(c, acts, states, i) && Grants(acts, states, i)
    ensures KeyTold(c, acts, states, i + 1)
  {
    GrantStep(c, acts, states, i);
    StandsNow(c, acts, states, i);
    var next := i + 1;
    forall j: nat | Stands(c, acts, states, j, next) ensures j == i {
      if j < i {
        StandsBack(c, acts, states, j, i);
      }
    }
  }

  lemma ToldAfterDelete(c: Config, acts: seq<Action>, states: seq<State>, i: nat)
    requires IsRun(c, acts, states) && i < |acts| && Deletes(acts, states, i)
    ensures KeyTold(c, acts, states, i + 1)
  {
    DeleteStep(c, acts, states, i);
    var next := i + 1;
    forall j: nat ensures !Stands(c, acts, states, j, next) {
      if j < i {
        StandsBack(c, acts, states, j, i);
      }
    }
  }

  lemma ToldAfterQuiet(c: Config, acts: seq<Action>, states: seq<State>, i: nat)
    requires IsRun(c, acts, states) && i < |acts| && KeyTold(c, acts, states, i)
    requires !Grants(acts, states, i) && !Deletes(acts, states, i)
    ensures KeyTold(c, acts, states, i + 1)
  {
    QuietStep(c, acts, states, i);
    StandsNow(c, acts, states, i);
    var next := i + 1;
    forall j: nat | j < i
      ensures Stands(c, acts, states, j, next) <==>
                Stands(c, acts, states, j, i) && states[i + 1].now < states[j].now + c.ttl {
      StandsBack(c, acts, states, j, i);
    }
    if Live(states[i + 1].key, states[i + 1].now) {
      var j: nat :| Stands(c, acts, states, j, i);
      assert Stands(c, acts, states, j, next);
    }
  }

  lemma {:induction false} KeyIsTold(c: Config, acts: seq<Action>, states: seq<State>, i: nat)
    requires IsRun(c, acts, states) && i < |states|
    ensures |states| == |acts| + 1 && KeyTold(c, acts, states, i)
  {
    if i > 0 {
      KeyIsTold(c, acts, states, i - 1);
      hide *;
      if Grants(acts, states, i - 1) {
        ToldAfterGrant(c, acts, states, i - 1);
      } else if Deletes(acts, states, i - 1) {
        ToldAfterDelete(c, acts, states, i - 1);
      } else {
        ToldAfterQuiet(c, acts, states, i - 1);
      }
    }
  }

  /**
   * In every run, timely or not: a SET is granted if and only if no earlier grant stands, that is, each
   * one's ttl has gone by since or a DEL was sent after it.
   */
  lemma GrantedIffNoneStands(c: Config, acts: seq<Action>, states: seq<State>, i: nat)
    requires IsRun(c, acts, states) && i < |acts| && acts[i].SetNx?
    ensures |states| == |acts| + 1
    ensures Grants(acts, states, i) <==> forall j: nat :: !Stands(c, acts, states, j, i)
    ensures !Grants(acts, states, i) ==> PhaseOf(states[i + 1], acts[i].a) == Denied
  {
    RunStep(c, acts, states, i);
    KeyIsTold(c, acts, states, i);
    hide Stands;
    hide IsRun;
    if j: nat :| Stands(c, acts, states, j, i) {
      StandingIsLive(c, acts, states, j, i);
    }
  }

  lemma StandingIsLive(c: Config, acts: seq<Action>, states: seq<State>, j: nat, i: nat)
    requires i < |states| == |acts| + 1 && KeyTold(c, acts, states, i) && Stands(c, acts, states, j, i)
    ensures Live(states[i].key, states[i].now) && states[i].key.value.value == c.worker(acts[j].a)
  {
  }

  /** The read before a release answers mine if and only if a grant to the reader's own worker stands. */
  lemma MineIffOwnGrantStands(c: Config, acts: seq<Action>, states: seq<State>, i: nat)
    requires IsRun(c, acts, states) && i < |acts| && acts[i].Get?
    ensures |states| == |acts| + 1 && PhaseOf(states[i + 1], acts[i].a).Checked?
    ensures PhaseOf(states[i + 1], acts[i].a).mine <==>
              exists j: nat :: Stands(c, acts, states, j, i) && c.worker(acts[j].a) == c.worker(acts[i].a)
  {
    RunStep(c, acts, states, i);
    KeyIsTold(c, acts, states, i);
    hide IsRun;
    if j: nat :| Stands(c, acts, states, j, i) {
      hide Stands;
      forall k: nat | Stands(c, acts, states, k, i)
        ensures Live(states[i].key, states[i].now) && states[i].key.value.value == c.worker(acts[k].a) {
        StandingIsLive(c, acts, states, k, i);
      }
    }
  }

  // ── How long a holder may stay ───────────────────────────────────────────

  /** a's request went out at step j. */
  ghost predicate AskedAt(acts: seq<Action>, states: seq<State>, a: Activation, j: nat, at: int) {
    j < |acts| && j < |states| && acts[j] == Begin(a) && states[j].now == at
  }

  ghost predicate AskedBefore(acts: seq<Action>, states: seq<State>, a: Activation, i: nat, at: int) {
    exists j: nat :: j < i && AskedAt(acts, states, a, j, at)
  }

  ghost predicate UntilTold(c: Config, acts: seq<Action>, states: seq<State>, i: nat, a: Activation)
    requires i < |states|
  {
    var p := PhaseOf(states[i], a);
    && (p.Requested? ==> AskedBefore(acts, states, a, i, p.sentAt))
    && (InSection(p) ==> AskedBefore(acts, states, a, i, p.until - c.ttl))
  }

  lemma UntilStep(c: Config, s: State, act: Action, a: Activation)
    requires Enabled(s, act)
    ensures var p, q := PhaseOf(s, a), PhaseOf(Apply(c, s, act), a);
            && (q.Requested? ==> if p.Requested? then q == p else act == Begin(a) && q.sentAt == s.now)
            && (InSection(q) ==> if InSection(p) then q.until == p.until
                                 else p.Requested? && q.until == p.sentAt + c.ttl)
  {
  }

  /** Whoever is inside holds a lease that runs out ttl after its own request was sent, not after the grant. */
  lemma {:induction false} LeaseCountsFromRequest(c: Config, acts: seq<Action>, states: seq<State>, i: nat,
                                                  a: Activation)
    requires IsRun(c, acts, states) && i < |states|
    ensures UntilTold(c, acts, states, i, a)
  {
    if i > 0 {
      LeaseCountsFromRequest(c, acts, states, i - 1, a);
      RunStep(c, acts, states, i - 1);
      UntilStep(c, states[i - 1], acts[i - 1], a);
      hide Apply;
      hide IsRun;
      hide Enabled;
      assert acts[i - 1] == Begin(a) ==> AskedAt(acts, states, a, i - 1, states[i - 1].now);
    }
  }

  // ── What the store and the results tell ──────────────────────────────────

  /** a's execution succeeded on attempt n. */
  predicate Succeeded(acts: seq<Action>, k: nat, a: Activation, n: int) {
    k < |acts| && acts[k] == Execute(a, Succeeds(n))
  }

  ghost predicate RecordTold(acts: seq<Action>, s: State, i: nat, a: Activation) {
    PhaseOf(s, a).Recorded? ==> exists k: nat :: k < i && Succeeded(acts, k, a, PhaseOf(s, a).attempt)
  }

  lemma RecordStep(c: Config, s: State, act: Action, a: Activation)
    requires Enabled(s, act)
    ensures PhaseOf(Apply(c, s, act), a).Recorded? ==>
              || PhaseOf(s, a) == PhaseOf(Apply(c, s, act), a)
              || act == Execute(a, Succeeds(PhaseOf(Apply(c, s, act), a).attempt))
  {
  }

  lemma {:induction false} RecordIsTold(c: Config, acts: seq<Action>, states: seq<State>, i: nat, a: Activation)
    requires IsRun(c, acts, states) && i < |states|
    ensures RecordTold(acts, states[i], i, a)
  {
    if i > 0 {
      RecordIsTold(c, acts, states, i - 1, a);
      RunStep(c, acts, states, i - 1);
      RecordStep(c, states[i - 1], acts[i - 1], a);
      hide Apply;
      hide IsRun;
      hide Enabled;
      var p := PhaseOf(states[i], a);
      if p.Recorded? && acts[i - 1] == Execute(a, Succeeds(p.attempt)) {
        assert Succeeded(acts, i - 1, a, p.attempt);
      }
    }
  }

  /** Step j marked attempt n. */
  predicate MarkedAt(acts: seq<Action>, states: seq<State>, j: nat, n: int) {
    && j < |acts| && j < |states| && acts[j].Mark?
    && PhaseOf(states[j], acts[j].a).Recorded? && PhaseOf(states[j], acts[j].a).attempt == n
  }

  ghost predicate MarkedBefore(acts: seq<Action>, states: seq<State>, i: nat, n: int) {
    exists j: nat :: j < i && MarkedAt(acts, states, j, n)
  }

  lemma {:induction false} CompletedIffMarked(c: Config, acts: seq<Action>, states: seq<State>, i: nat, n: int)
    requires IsRun(c, acts, states) && i < |states|
    ensures n in states[i].completed <==> MarkedBefore(acts, states, i, n)
  {
    if i > 0 {
      CompletedIffMarked(c, acts, states, i - 1, n);
      RunStep(c, acts, states, i - 1);
      MarkStep(c, states[i - 1], acts[i - 1], n);
      hide Apply;
      hide IsRun;
      hide PhaseOf;
      assert n in states[i].completed && n !in states[i - 1].completed ==> MarkedAt(acts, states, i - 1, n);
    }
  }

  lemma MarkStep(c: Config, s: State, act: Action, n: int)
    requires Enabled(s, act)
    ensures n in Apply(c, s, act).completed <==>
              n in s.completed || (act.Mark? && PhaseOf(s, act.a).Recorded? && PhaseOf(s, act.a).attempt == n)
  {
  }

  lemma HitMeans(c: Config, s: State)
    ensures Hit(c, s) <==> exists n :: n in s.completed && (c.exactAttempt ==> n == 1)
  {
    if forall n :: n !in s.completed {
      assert s.completed == {};
    }
  }

  /**
   * The probe lets its activation execute if and only if no attempt the store answers for was marked
   * before; and what is marked is an attempt on which the marking activation succeeded.
   */
  lemma ExecutesIffUnmarked(c: Config, acts: seq<Action>, states: seq<State>, i: nat)
    requires IsRun(c, acts, states) && i < |acts| && acts[i].Probe?
    ensures |states| == |acts| + 1
    ensures PhaseOf(states[i + 1], acts[i].a).Missed? <==>
              forall n :: MarkedBefore(acts, states, i, n) ==> c.exactAttempt && n != 1
    ensures !PhaseOf(states[i + 1], acts[i].a).Missed? ==> PhaseOf(states[i + 1], acts[i].a).Leaving?
    ensures forall j: nat, n :: j < i && MarkedAt(acts, states, j, n) ==>
              exists k: nat :: k < j && Succeeded(acts, k, acts[j].a, n)
  {
    RunStep(c, acts, states, i);
    HitMeans(c, states[i]);
    forall n ensures n in states[i].completed <==> MarkedBefore(acts, states, i, n) {
      CompletedIffMarked(c, acts, states, i, n);
    }
    forall j: nat, n | j < i && MarkedAt(acts, states, j, n)
      ensures exists k: nat :: k < j && Succeeded(acts, k, acts[j].a, n) {
      RecordIsTold(c, acts, states, j, acts[j].a);
    }
    hide IsRun;
    hide MarkedAt;
    hide MarkedBefore;
    hide Succeeded;
  }

  function SuccessCount(acts: seq<Action>): nat {
    if acts == [] then 0 else SuccessCount(acts[..|acts| - 1]) + if IsSuccess(acts[|acts| - 1]) then 1 else 0
  }

  lemma {:induction false} SuccessesAreCounted(c: Config, acts: seq<Action>, states: seq<State>, i: nat)
    requires IsRun(c, acts, states) && i < |states|
    ensures i <= |acts| && states[i].successes == SuccessCount(acts[..i])
  {
    if i > 0 {
      SuccessesAreCounted(c, acts, states, i - 1);
      RunStep(c, acts, states, i - 1);
      TakeStep(acts, i - 1);
      hide IsRun;
    }
  }
}
