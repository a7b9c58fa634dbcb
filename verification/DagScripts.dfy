/**
 * What a run says, from the replies alone: the order of each node's awaited calls, the results, the
 * saga stack, the shared outputs and the events, with no reference to the phases between them.
 */
module DagScripts {
  import opened Seqs
  import opened Graphs
  import opened Kahn
  import opened DagState
  import opened DagInvariants
  import opened DagLog
  import opened DagRuns
  import opened DagCoverage

  // ── One node's conversation ──────────────────────────────────────────────

  /** The node a reply is for. */
  function NodeOf(a: Action): Option<Id> {
    match a
    case LeaseReply(id, _) => Some(id)
    case ProbeReply(id, _) => Some(id)
    case OutputReply(id, _) => Some(id)
    case ExecuteReply(id, _, _) => Some(id)
    case MarkReply(id) => Some(id)
    case ReleaseReply(id) => Some(id)
    case Settle(id) => Some(id)
    case _ => None
  }

  /** The replies for one node, in order. */
  function Word(acts: seq<Action>, id: Id): seq<Action> {
    if acts == [] then []
    else Word(acts[..|acts| - 1], id) + (if NodeOf(acts[|acts| - 1]) == Some(id) then [acts[|acts| - 1]] else [])
  }

  datatype Conversation = Denied | Hit(output: Output) | Miss(status: Status, output: Output)

  predicate Possible(c: Config, k: Conversation) {
    && (k.Hit? ==> c.hasIdempotencyStore)
    && (k.Miss? ==> k.status != Skipped)
  }

  /** A node's awaited calls from its lease to its promise, in the order of processNode. */
  function Script(c: Config, id: Id, k: Conversation): seq<Action> {
    match k
    case Denied => [LeaseReply(id, false), Settle(id)]
    case Hit(output) =>
      [LeaseReply(id, true), ProbeReply(id, true), OutputReply(id, output), ReleaseReply(id), Settle(id)]
    case Miss(status, output) =>
      Opening(c, id) + [ExecuteReply(id, status, output)]
      + (if status == Success && c.hasIdempotencyStore then [MarkReply(id)] else [])
      + [ReleaseReply(id), Settle(id)]
  }

  function Opening(c: Config, id: Id): seq<Action> {
    [LeaseReply(id, true)] + (if c.hasIdempotencyStore then [ProbeReply(id, false)] else [])
  }

  /** What has been said before the script's last n replies. */
  ghost predicate SaidAllBut(c: Config, w: seq<Action>, id: Id, n: nat) {
    exists k :: Possible(c, k) && (n == 2 ==> !k.Denied?) && n <= |Script(c, id, k)|
             && w == Script(c, id, k)[..|Script(c, id, k)| - n]
  }

  /** What has been said of a started node, by the call it waits for. */
  ghost predicate Said(c: Config, w: seq<Action>, id: Id, p: Phase) {
    match p
    case Acquiring => w == []
    case Probing => c.hasIdempotencyStore && w == [LeaseReply(id, true)]
    case Fetching => c.hasIdempotencyStore && w == [LeaseReply(id, true), ProbeReply(id, true)]
    case Executing => w == Opening(c, id)
    case Marking(output) => c.hasIdempotencyStore && w == Opening(c, id) + [ExecuteReply(id, Success, output)]
    case Releasing => SaidAllBut(c, w, id, 2)
    case Settling => SaidAllBut(c, w, id, 1)
  }

  ghost predicate Spoken(c: Config, s: State, id: Id, w: seq<Action>) {
    if id in s.active then Said(c, w, id, s.active[id])
    else if id in s.q.taken && id !in CompletedIds(c) then SaidAllBut(c, w, id, 0)
    else w == []
  }

  lemma FinishScript(c: Config, id: Id, status: Status, output: Output, marked: bool, w: seq<Action>)
    requires status != Skipped && (marked <==> status == Success && c.hasIdempotencyStore)
    requires w == Opening(c, id) + [ExecuteReply(id, status, output)] + (if marked then [MarkReply(id)] else [])
    ensures SaidAllBut(c, w, id, 2)
  {
    var k := Miss(status, output);
    var all := Script(c, id, k);
    hide Opening;
    assert all == w + [ReleaseReply(id), Settle(id)];
    assert Possible(c, k) && all[..|all| - 2] == w;
  }

  lemma HitScript(c: Config, id: Id, output: Output)
    requires c.hasIdempotencyStore
    ensures SaidAllBut(c, [LeaseReply(id, true), ProbeReply(id, true), OutputReply(id, output)], id, 2)
  {
    var k := Hit(output);
    assert Possible(c, k) && |Script(c, id, k)| == 5;
  }

  lemma DeniedScript(c: Config, id: Id)
    ensures SaidAllBut(c, [LeaseReply(id, false)], id, 1)
  {
    assert Possible(c, Denied) && |Script(c, id, Denied)| == 2;
  }

  lemma ScriptEnds(c: Config, id: Id, k: Conversation)
    ensures var all := Script(c, id, k);
            && |all| >= 2 && all[|all| - 1] == Settle(id)
            && (!k.Denied? ==> all[|all| - 2] == ReleaseReply(id))
  {
    hide Opening;
  }

  lemma SaidFrom(c: Config, w: seq<Action>, id: Id, n: nat, k: Conversation)
    requires Possible(c, k) && (n == 2 ==> !k.Denied?) && n <= |Script(c, id, k)|
    requires w == Script(c, id, k)[..|Script(c, id, k)| - n]
    ensures SaidAllBut(c, w, id, n)
  {
    hide Script;
  }

  /** The script behind what was said. */
  lemma ScriptBehind(c: Config, w: seq<Action>, id: Id, n: nat) returns (k: Conversation)
    requires SaidAllBut(c, w, id, n)
    ensures Possible(c, k) && (n == 2 ==> !k.Denied?) && n <= |Script(c, id, k)|
    ensures w == Script(c, id, k)[..|Script(c, id, k)| - n]
  {
    hide Script;
    k :| Possible(c, k) && (n == 2 ==> !k.Denied?) && n <= |Script(c, id, k)|
         && w == Script(c, id, k)[..|Script(c, id, k)| - n];
  }

  lemma TakeOneMore<T>(all: seq<T>, w: seq<T>, n: nat)
    requires 1 <= n <= |all| && w == all[..|all| - n]
    ensures w + [all[|all| - n]] == all[..|all| - (n - 1)]
  {
  }

  lemma SayRelease(c: Config, w: seq<Action>, id: Id)
    requires SaidAllBut(c, w, id, 2)
    ensures SaidAllBut(c, w + [ReleaseReply(id)], id, 1)
  {
    hide *;
    var k := ScriptBehind(c, w, id, 2);
    ScriptEnds(c, id, k);
    TakeOneMore(Script(c, id, k), w, 2);
    SaidFrom(c, w + [ReleaseReply(id)], id, 1, k);
  }

  lemma SaySettle(c: Config, w: seq<Action>, id: Id)
    requires SaidAllBut(c, w, id, 1)
    ensures SaidAllBut(c, w + [Settle(id)], id, 0)
  {
    hide *;
    var k := ScriptBehind(c, w, id, 1);
    ScriptEnds(c, id, k);
    TakeOneMore(Script(c, id, k), w, 1);
    SaidFrom(c, w + [Settle(id)], id, 0, k);
  }

  // ── Every step keeps to the script ───────────────────────────────────────

  /** Which phase a reply moves its node to. */
  function NextPhase(c: Config, s: State, a: Action): Phase {
    match a
    case LeaseReply(_, granted) => if !granted then Settling else if c.hasIdempotencyStore then Probing else Executing
    case ProbeReply(_, hit) => if hit then Fetching else Executing
    case ExecuteReply(_, status, output) =>
      if status == Success && c.hasIdempotencyStore then Marking(output) else Releasing
    case ReleaseReply(_) => Settling
    case _ => Releasing
  }

  lemma ReplyMoves(c: Config, s: State, a: Action, id: Id)
    requires Enabled(c, s, a) && NodeOf(a) == Some(id) && !a.Settle? && id !in CompletedIds(c)
    ensures Apply(c, s, a).active == s.active[id := NextPhase(c, s, a)] && Apply(c, s, a).q.taken == s.q.taken
  {
    hide SetShared;
    hide Relax;
  }

  lemma ReplySays(c: Config, s: State, a: Action, id: Id, w: seq<Action>)
    requires Enabled(c, s, a) && NodeOf(a) == Some(id) && !a.Settle? && id in s.active && Said(c, w, id, s.active[id])
    ensures Said(c, w + [a], id, NextPhase(c, s, a))
  {
    hide SaidAllBut;
    match a
    case LeaseReply(_, granted) =>
      if !granted {
        DeniedScript(c, id);
        assert w + [a] == [LeaseReply(id, false)];
      }
    case OutputReply(_, output) =>
      HitScript(c, id, output);
      assert w + [a] == [LeaseReply(id, true), ProbeReply(id, true), OutputReply(id, output)];
    case ExecuteReply(_, status, output) =>
      if status != Success || !c.hasIdempotencyStore {
        assert w + [a] == Opening(c, id) + [a] + [];
        FinishScript(c, id, status, output, false, w + [a]);
      }
    case MarkReply(_) =>
      FinishScript(c, id, Success, s.active[id].output, true, w + [a]);
    case ReleaseReply(_) =>
      SayRelease(c, w, id);
    case _ =>
  }

  lemma SpokenOther(c: Config, s: State, s1: State, id: Id, w: seq<Action>)
    requires Spoken(c, s, id, w) && (id in s.q.taken <==> id in s1.q.taken)
    requires (id in s.active <==> id in s1.active) && (id in s.active ==> s.active[id] == s1.active[id])
    ensures Spoken(c, s1, id, w)
  {
    hide Said;
    hide SaidAllBut;
  }

  lemma SpokenReply(c: Config, s: State, a: Action, id: Id, w: seq<Action>)
    requires CoreInv(c, s) && Enabled(c, s, a) && NodeOf(a) == Some(id) && Spoken(c, s, id, w)
    ensures Spoken(c, Apply(c, s, a), id, w + [a])
  {
    ActiveNotCompleted(c, s, id);
    assert id in SetOf(s.q.taken);
    hide CoreInv;
    hide Said;
    hide SaidAllBut;
    hide Script;
    if a.Settle? {
      assert SaidAllBut(c, w, id, 1) by {
        assert Said(c, w, id, Settling);
        SettlingMeans(c, w, id);
      }
      SaySettle(c, w, id);
    } else {
      ReplyMoves(c, s, a, id);
      ReplySays(c, s, a, id, w);
      hide Apply;
      hide NextPhase;
    }
  }

  lemma SettlingMeans(c: Config, w: seq<Action>, id: Id)
    requires Said(c, w, id, Settling)
    ensures SaidAllBut(c, w, id, 1)
  {
  }

  lemma SpokenAdmit(c: Config, s: State, id: Id, w: seq<Action>)
    requires CoreInv(c, s) && Spoken(c, s, id, w) && s.q.ready != [] && !s.failed && !s.aborted
    ensures Spoken(c, AdmitHead(c, s), id, w)
  {
    HeadIsNew(c.graph, s.q);
    var x := s.q.ready[0];
    assert x !in SetOf(s.q.taken);
    assert x !in s.active && x !in s.inFlight;
    hide CoreInv;
    hide SaidAllBut;
    hide Script;
  }

  /** What a step changes in the nodes it is not a reply for: at most one of them is admitted. */
  lemma SpokenElsewhere(c: Config, s: State, a: Action, id: Id, w: seq<Action>)
    requires CoreInv(c, s) && ModeInv(c, s) && Enabled(c, s, a) && NodeOf(a) != Some(id) && Spoken(c, s, id, w)
    ensures Spoken(c, Apply(c, s, a), id, w)
  {
    if NodeOf(a).Some? {
      var x := NodeOf(a).value;
      ActiveNotCompleted(c, s, x);
      hide CoreInv;
      hide ModeInv;
      hide Spoken;
      if !a.Settle? {
        ReplyMoves(c, s, a, x);
        hide Apply;
        hide NextPhase;
      }
      SpokenOther(c, s, Apply(c, s, a), id, w);
    } else if a == LoopTurn && s.mode.Admitting? && s.q.ready != [] && CanStart(c, s) {
      assert !s.failed && !s.aborted;
      hide CoreInv;
      hide ModeInv;
      SpokenAdmit(c, s, id, w);
    } else {
      hide CoreInv;
      hide ModeInv;
      hide Spoken;
      SpokenOther(c, s, Apply(c, s, a), id, w);
    }
  }

  lemma SpokenInit(c: Config, id: Id)
    ensures Spoken(c, Init(c), id, [])
  {
    hide Said;
    hide SaidAllBut;
  }

  lemma SpokenStep(c: Config, s: State, acts: seq<Action>, a: Action, id: Id)
    requires RunInv(c, s) && Enabled(c, s, a) && Spoken(c, s, id, Word(acts, id))
    ensures Spoken(c, Apply(c, s, a), id, Word(acts + [a], id))
  {
    var w := Word(acts, id);
    assert (acts + [a])[..|acts|] == acts;
    assert Word(acts + [a], id) == w + (if NodeOf(a) == Some(id) then [a] else []);
    hide *;
    RunParts(c, s);
    if NodeOf(a) == Some(id) {
      SpokenReply(c, s, a, id, w);
    } else {
      SpokenElsewhere(c, s, a, id, w);
      assert w + [] == w;
    }
  }

  lemma {:induction false} SpokenInvariant(c: Config, acts: seq<Action>, states: seq<State>, i: nat, id: Id)
    requires WellFormed(c) && IsRun(c, acts, states) && i < |states|
    ensures RunInv(c, states[i]) && Spoken(c, states[i], id, Word(acts[..i], id))
  {
    RunShape(c, acts, states);
    if i == 0 {
      SpokenInit(c, id);
      assert acts[..0] == [] && Word([], id) == [];
      hide *;
      RunInvariant(c, acts, states, i);
    } else {
      hide *;
      RunInvariant(c, acts, states, i);
      SpokenInvariant(c, acts, states, i - 1, id);
      StepOf(c, acts, states, i - 1);
      SpokenStep(c, states[i - 1], acts[..i - 1], acts[i - 1], id);
    }
  }

  // ── What the scripts mean ────────────────────────────────────────────────

  ghost predicate SpeaksInOrder(c: Config, w: seq<Action>, id: Id) {
    exists k :: Possible(c, k) && w <= Script(c, id, k)
  }

  lemma PrefixOfScript(c: Config, w: seq<Action>, id: Id, k: Conversation, n: nat)
    requires Possible(c, k) && n <= |Script(c, id, k)| && w == Script(c, id, k)[..n]
    ensures SpeaksInOrder(c, w, id)
  {
    hide Script;
  }

  lemma SaidIsPrefix(c: Config, w: seq<Action>, id: Id, n: nat)
    requires SaidAllBut(c, w, id, n)
    ensures SpeaksInOrder(c, w, id)
  {
    hide *;
    var k := ScriptBehind(c, w, id, n);
    PrefixOfScript(c, w, id, k, |Script(c, id, k)| - n);
  }

  lemma SaidInOrder(c: Config, w: seq<Action>, id: Id, p: Phase)
    requires Said(c, w, id, p)
    ensures SpeaksInOrder(c, w, id)
  {
    match p
    case Acquiring => PrefixOfScript(c, w, id, Denied, 0);
    case Probing => PrefixOfScript(c, w, id, Hit(map[]), 1);
    case Fetching => PrefixOfScript(c, w, id, Hit(map[]), 2);
    case Executing => PrefixOfScript(c, w, id, Miss(Success, map[]), |w|);
    case Marking(output) => PrefixOfScript(c, w, id, Miss(Success, output), |w|);
    case Releasing => SaidIsPrefix(c, w, id, 2);
    case Settling => SaidIsPrefix(c, w, id, 1);
  }

  /** In every interleaving the replies for one node come in the order of its script, each at most once. */
  lemma NodeSpeaksInOrder(c: Config, acts: seq<Action>, states: seq<State>, i: nat, id: Id)
    requires WellFormed(c) && IsRun(c, acts, states) && i < |states|
    ensures SpeaksInOrder(c, Word(acts[..i], id), id)
  {
    SpokenInvariant(c, acts, states, i, id);
    var s, w := states[i], Word(acts[..i], id);
    hide RunInv;
    hide Said;
    hide SaidAllBut;
    hide SpeaksInOrder;
    if id in s.active {
      SaidInOrder(c, w, id, s.active[id]);
    } else if id in s.q.taken && id !in CompletedIds(c) {
      SaidIsPrefix(c, w, id, 0);
    } else {
      hide Spoken;
      PrefixOfScript(c, w, id, Denied, 0);
    }
  }

  /** In a finished run every node taken and not dropped for a checkpoint has been through a whole script. */
  lemma FinishedRunsSpokeWhole(c: Config, acts: seq<Action>, states: seq<State>, i: nat, id: Id)
    requires WellFormed(c) && IsRun(c, acts, states) && i < |states| && states[i].mode.Ended?
    ensures if id in states[i].q.taken && id !in CompletedIds(c)
            then exists k :: Possible(c, k) && Word(acts[..i], id) == Script(c, id, k)
            else Word(acts[..i], id) == []
  {
    SpokenInvariant(c, acts, states, i, id);
    hide *;
    EndedIdle(c, states[i]);
    SpokeWhole(c, states[i], id, Word(acts[..i], id));
  }

  lemma SpokeWhole(c: Config, s: State, id: Id, w: seq<Action>)
    requires Spoken(c, s, id, w) && s.active == map[]
    ensures if id in s.q.taken && id !in CompletedIds(c) then exists k :: Possible(c, k) && w == Script(c, id, k)
            else w == []
  {
    hide SaidAllBut;
    if id in s.q.taken && id !in CompletedIds(c) {
      hide *;
      var k := ScriptBehind(c, w, id, 0);
      assert w == Script(c, id, k);
    }
  }

  lemma {:induction false} WordMembers(acts: seq<Action>, id: Id, a: Action)
    ensures a in Word(acts, id) <==> a in acts && NodeOf(a) == Some(id)
  {
    if acts != [] {
      var n := |acts| - 1;
      WordMembers(acts[..n], id, a);
      assert acts == acts[..n] + [acts[n]];
    }
  }

  lemma MissAt(c: Config, id: Id, status: Status, output: Output)
    ensures var all, n := Script(c, id, Miss(status, output)), if c.hasIdempotencyStore then 2 else 1;
            && n < |all| && all[0] == LeaseReply(id, true) && all[n] == ExecuteReply(id, status, output)
            && (c.hasIdempotencyStore ==> all[1] == ProbeReply(id, false))
            && forall i :: n < i < |all| ==>
                 || (all[i] == MarkReply(id) && status == Success) || all[i] == ReleaseReply(id) || all[i] == Settle(id)
  {
    assert |Opening(c, id)| == if c.hasIdempotencyStore then 2 else 1;
  }

  /** Which replies a script can hold. */
  ghost predicate WellProbed(c: Config, w: seq<Action>, id: Id) {
    && (forall status, output :: ExecuteReply(id, status, output) in w ==>
          && status != Skipped
          && (c.hasIdempotencyStore ==> ProbeReply(id, false) in w && ProbeReply(id, true) !in w))
    && (forall output :: OutputReply(id, output) in w ==> ProbeReply(id, true) in w)
    && (MarkReply(id) in w ==> exists output :: ExecuteReply(id, Success, output) in w)
  }

  lemma MissProbes(c: Config, w: seq<Action>, id: Id, status: Status, output: Output)
    requires status != Skipped && w <= Script(c, id, Miss(status, output))
    ensures WellProbed(c, w, id)
  {
    var all, n := Script(c, id, Miss(status, output)), if c.hasIdempotencyStore then 2 else 1;
    MissAt(c, id, status, output);
    hide Script;
    assert forall i :: 0 <= i < |w| ==> w[i] == all[i];
    forall s, o | ExecuteReply(id, s, o) in w ensures n < |w| && s == status {
      var i :| 0 <= i < |w| && w[i] == ExecuteReply(id, s, o);
      assert i == n;
    }
    assert n < |w| ==> w[n] in w && (c.hasIdempotencyStore ==> w[1] in w);
    assert ProbeReply(id, true) !in w;
    assert MarkReply(id) in w ==> n < |w| && status == Success;
  }

  lemma HitProbes(c: Config, w: seq<Action>, id: Id, output: Output)
    requires w <= Script(c, id, Hit(output))
    ensures WellProbed(c, w, id)
  {
    var all := [LeaseReply(id, true), ProbeReply(id, true), OutputReply(id, output), ReleaseReply(id), Settle(id)];
    assert all == Script(c, id, Hit(output));
    hide Script;
    assert forall i :: 0 <= i < |w| ==> w[i] == all[i];
    forall o | OutputReply(id, o) in w ensures ProbeReply(id, true) in w {
      var i :| 0 <= i < |w| && w[i] == OutputReply(id, o);
      assert i == 2;
      assert w[1] in w;
    }
  }

  lemma DeniedProbes(c: Config, w: seq<Action>, id: Id)
    requires w <= Script(c, id, Denied)
    ensures WellProbed(c, w, id)
  {
    var all := [LeaseReply(id, false), Settle(id)];
    assert forall i :: 0 <= i < |w| ==> w[i] == all[i];
  }

  lemma ScriptProbes(c: Config, w: seq<Action>, id: Id)
    requires SpeaksInOrder(c, w, id)
    ensures WellProbed(c, w, id)
  {
    var k :| Possible(c, k) && w <= Script(c, id, k);
    hide Script;
    hide WellProbed;
    match k
    case Denied => DeniedProbes(c, w, id);
    case Hit(output) => HitProbes(c, w, id, output);
    case Miss(status, output) => MissProbes(c, w, id, status, output);
  }

  /**
   * With an idempotency store a node executes only behind a probe that missed, and a node whose probe
   * hit never executes.
   */
  lemma ExecutesOnlyAfterMiss(c: Config, acts: seq<Action>, states: seq<State>, j: nat, id: Id)
    requires WellFormed(c) && IsRun(c, acts, states) && j < |acts|
    requires c.hasIdempotencyStore && acts[j].ExecuteReply? && acts[j].id == id
    ensures ProbeReply(id, false) in acts[..j] && ProbeReply(id, true) !in acts
  {
    NodeSpeaksInOrder(c, acts, states, j + 1, id);
    NodeSpeaksInOrder(c, acts, states, |acts|, id);
    hide *;
    assert acts[..|acts|] == acts;
    assert acts[..j + 1] == acts[..j] + [acts[j]];
    assert acts[j] == ExecuteReply(id, acts[j].status, acts[j].output);
    ProbedBefore(c, acts[..j], acts[j], acts, id);
  }

  lemma ProbedBefore(c: Config, before: seq<Action>, a: Action, acts: seq<Action>, id: Id)
    requires c.hasIdempotencyStore && a.ExecuteReply? && a.id == id && a in acts
    requires SpeaksInOrder(c, Word(before + [a], id), id) && SpeaksInOrder(c, Word(acts, id), id)
    ensures ProbeReply(id, false) in before && ProbeReply(id, true) !in acts
  {
    ScriptProbes(c, Word(before + [a], id), id);
    ScriptProbes(c, Word(acts, id), id);
    WordMembers(before + [a], id, a);
    WordMembers(acts, id, a);
    WordMembers(before + [a], id, ProbeReply(id, false));
    WordMembers(acts, id, ProbeReply(id, true));
    assert a == ExecuteReply(id, a.status, a.output) && NodeOf(a) == Some(id);
    hide *;
    assert a in before + [a];
    ExecutedMeans(c, Word(before + [a], id), id, a);
    ExecutedMeans(c, Word(acts, id), id, a);
  }

  lemma ExecutedMeans(c: Config, w: seq<Action>, id: Id, a: Action)
    requires WellProbed(c, w, id) && c.hasIdempotencyStore && a.ExecuteReply? && a.id == id && a in w
    ensures ProbeReply(id, false) in w && ProbeReply(id, true) !in w
  {
    assert a == ExecuteReply(id, a.status, a.output);
  }
}
