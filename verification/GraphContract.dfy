/** Versioned workflow graphs: computing a diff between two of them and applying it. */
module GraphContract {
  import opened Seqs
  import opened Json
  import opened GraphDiff
  import opened Sorting

  // ── Graphs ───────────────────────────────────────────────────────────────

  /** The fields the diff reads; everything else in the object is carried along. */
  predicate IsGraph(g: Json) {
    && g.Obj?
    && "nodes" in g.fields && g.fields["nodes"].Arr?
    && "edges" in g.fields && g.fields["edges"].Arr?
    && "metadata" in g.fields && g.fields["metadata"].Obj?
    && "version" in g.fields
  }

  function Nodes(g: Json): seq<Json>
    requires IsGraph(g)
  {
    g.fields["nodes"].items
  }

  function Edges(g: Json): seq<Json>
    requires IsGraph(g)
  {
    g.fields["edges"].items
  }

  function Meta(g: Json): map<string, Json>
    requires IsGraph(g)
  {
    g.fields["metadata"].fields
  }

  function TextOf(j: Json, field: string): string {
    if j.Obj? && field in j.fields && j.fields[field].Str? then j.fields[field].s else ""
  }

  function Id(node: Json): string {
    TextOf(node, "id")
  }

  function EdgeKey(edge: Json): string {
    TextOf(edge, "source") + "->" + TextOf(edge, "target")
  }

  function SortedNodes(g: Json, leq: Leq): seq<Json>
    requires IsGraph(g)
  {
    SortBy(Nodes(g), Id, leq)
  }

  // ── computeDiff ──────────────────────────────────────────────────────────

  datatype Diff = Diff(fromVersion: Json, toVersion: Json, patches: seq<Op>,
                       added: seq<string>, removed: seq<string>, modified: seq<string>, edgesChanged: bool)

  function IdSet(nodes: seq<Json>): set<string> {
    set i | 0 <= i < |nodes| :: Id(nodes[i])
  }

  function IdsOutside(nodes: seq<Json>, ids: set<string>): seq<string> {
    if nodes == [] then []
    else
      var n := nodes[|nodes| - 1];
      IdsOutside(nodes[..|nodes| - 1], ids) + (if Id(n) in ids then [] else [Id(n)])
  }

  /** nodes.find: the first with this id. */
  function FindNode(nodes: seq<Json>, id: string): (r: Option<Json>)
    ensures r.Some? <==> id in IdSet(nodes)
    ensures r.Some? ==> r.value in nodes && Id(r.value) == id
  {
    if nodes == [] then None
    else if Id(nodes[0]) == id then Some(nodes[0])
    else
      assert forall i :: 0 < i < |nodes| ==> nodes[i] == nodes[1..][i - 1];
      FindNode(nodes[1..], id)
  }

  predicate IsModified(from: seq<Json>, n: Json) {
    var orig := FindNode(from, Id(n));
    orig.Some? && !DeepEqual(orig.value, n)
  }

  function ModifiedIds(from: seq<Json>, to: seq<Json>): seq<string> {
    if to == [] then []
    else
      var n := to[|to| - 1];
      ModifiedIds(from, to[..|to| - 1]) + (if IsModified(from, n) then [Id(n)] else [])
  }

  function NodeOps(from: Json, to: Json, leq: Leq, order: KeyOrder): seq<Op>
    requires IsGraph(from) && IsGraph(to)
  {
    FindOps(Some(Arr(SortedNodes(from, leq))), Some(Arr(SortedNodes(to, leq))), "/nodes", ["nodes"], order)
  }

  function EdgeOps(from: Json, to: Json, order: KeyOrder): seq<Op>
    requires IsGraph(from) && IsGraph(to)
  {
    FindOps(Some(Arr(Edges(from))), Some(Arr(Edges(to))), "/edges", ["edges"], order)
  }

  function MetaOps(from: Json, to: Json, order: KeyOrder): seq<Op>
    requires IsGraph(from) && IsGraph(to)
  {
    FindOps(Some(Obj(Meta(from))), Some(Obj(Meta(to))), "/metadata", ["metadata"], order)
  }

  function ComputeDiff(from: Json, to: Json, leq: Leq, order: KeyOrder): Diff
    requires IsGraph(from) && IsGraph(to)
  {
    Diff(from.fields["version"], to.fields["version"],
         NodeOps(from, to, leq, order) + EdgeOps(from, to, order) + MetaOps(from, to, order),
         IdsOutside(Nodes(to), IdSet(Nodes(from))),
         IdsOutside(Nodes(from), IdSet(Nodes(to))),
         ModifiedIds(Nodes(from), Nodes(to)),
         !DeepEqual(Arr(SortBy(Edges(from), EdgeKey, leq)), Arr(SortBy(Edges(to), EdgeKey, leq))))
  }

  // ── applyDiff ────────────────────────────────────────────────────────────

  const STAMPED: set<string> := {"versionChecksum", "updatedAt"}

  /** The bookkeeping after the patches; it throws when they left no metadata to write to. */
  function Stamp(g: Json, toVersion: Json, hash: Json -> Json, now: Json): Option<Json> {
    if !g.Obj? || "metadata" !in g.fields || !Container(g.fields["metadata"]) then None
    else
      var checksum := hash(g);
      var meta := WriteLeaf(g.fields["metadata"], "versionChecksum", Replace(checksum));
      Some(Obj(g.fields["checksum" := checksum]
                       ["metadata" := WriteLeaf(meta, "updatedAt", Replace(now))]
                       ["version" := toVersion]))
  }

  lemma StepsTake(graph: Json, ops: seq<Op>, i: nat)
    requires i < |ops|
    ensures ApplySteps(graph, StepsOf(ops)[..i + 1])
         == ApplyAt(ApplySteps(graph, StepsOf(ops)[..i]), Target(Segments(ops[i].path)), ops[i].action)
  {
    hide ApplySteps;
    var steps := StepsOf(ops);
    assert steps[..i + 1] == steps[..i] + [StepOf(ops[i])];
    ApplySnoc(graph, steps[..i], StepOf(ops[i]));
  }

  method ApplyDiff(graph: Json, diff: Diff, hash: Json -> Json, now: Json) returns (r: Option<Json>)
    ensures r == Stamp(ApplyOps(graph, diff.patches), diff.toVersion, hash, now)
  {
    var result := graph;
    ghost var steps := StepsOf(diff.patches);
    assert steps[..0] == [] && ApplySteps(graph, []) == graph;
    assert ApplyOps(graph, diff.patches) == ApplySteps(graph, steps) && |steps| == |diff.patches|;
    hide *;
    var i := 0;
    while i < |diff.patches|
      invariant 0 <= i <= |diff.patches|
      invariant result == ApplySteps(graph, steps[..i])
    {
      StepsTake(graph, diff.patches, i);
      result := ApplyAt(result, Target(Segments(diff.patches[i].path)), diff.patches[i].action);
      i := i + 1;
    }
    assert steps[..i] == steps;
    r := Stamp(result, diff.toVersion, hash, now);
  }

  // ── What the diff makes of a graph ───────────────────────────────────────

  /** Between arrays there is at most one operation, and it writes the whole target. */
  lemma ArrayPatch(root: map<string, Json>, key: string, s: seq<Json>, t: seq<Json>, base: string, at: seq<string>,
                   order: KeyOrder)
    requires Segments(base) == [key]
    ensures ApplyOps(Obj(root), FindOps(Some(Arr(s)), Some(Arr(t)), base, at, order))
         == Obj(if DeepEqual(Arr(s), Arr(t)) then root else root[key := Arr(t)])
  {
    var ops := FindOps(Some(Arr(s)), Some(Arr(t)), base, at, order);
    var equal := DeepEqual(Arr(s), Arr(t));
    hide DeepEqual;
    if equal {
      assert ops == [];
    } else {
      assert ops == [Op(base, Replace(Arr(t)))];
      assert StepsOf(ops) == [Step([key], Replace(Arr(t)))];
      ApplyOne(Obj(root), Step([key], Replace(Arr(t))));
    }
  }

  lemma GraphPaths()
    ensures Segments("/nodes") == ["nodes"] && Segments("/edges") == ["edges"] && Segments("/metadata") == ["metadata"]
  {
    hide Segments;
    assert "/" + "nodes" == "/nodes" && "/" + "edges" == "/edges" && "/" + "metadata" == "/metadata";
    FieldPath("nodes");
    FieldPath("edges");
    FieldPath("metadata");
  }

  function PatchedNodes(from: Json, to: Json, leq: Leq): Json
    requires IsGraph(from) && IsGraph(to)
  {
    if DeepEqual(Arr(SortedNodes(from, leq)), Arr(SortedNodes(to, leq))) then from.fields["nodes"]
    else Arr(SortedNodes(to, leq))
  }

  function PatchedEdges(from: Json, to: Json): Json
    requires IsGraph(from) && IsGraph(to)
  {
    if DeepEqual(Arr(Edges(from)), Arr(Edges(to))) then from.fields["edges"] else to.fields["edges"]
  }

  function PatchedMeta(from: Json, to: Json, order: KeyOrder): Json
    requires IsGraph(from) && IsGraph(to)
  {
    DeepPatched(Obj(Meta(from)), Obj(Meta(to)), ["metadata"], order)
  }

  lemma ApplyThree(j: Json, a: seq<Op>, b: seq<Op>, c: seq<Op>)
    ensures ApplyOps(j, a + b + c) == ApplyOps(ApplyOps(ApplyOps(j, a), b), c)
  {
    StepsOfConcat(a + b, c);
    StepsOfConcat(a, b);
    hide ApplySteps;
    ApplyConcat(j, StepsOf(a) + StepsOf(b), StepsOf(c));
    ApplyConcat(j, StepsOf(a), StepsOf(b));
  }

  lemma PatchesApplied(from: Json, to: Json, leq: Leq, order: KeyOrder)
    requires IsGraph(from) && IsGraph(to) && IsOrder(order)
    requires GoodKeys(Obj(Meta(from))) && GoodKeys(Obj(Meta(to)))
    ensures ApplyOps(from, ComputeDiff(from, to, leq, order).patches)
         == Obj(from.fields["nodes" := PatchedNodes(from, to, leq)]
                           ["edges" := PatchedEdges(from, to)]
                           ["metadata" := PatchedMeta(from, to, order)])
  {
    GraphPaths();
    hide Segments;
    hide ApplyOps;
    hide FindOps;
    hide GoodKeys;
    hide DeepEqual;
    hide DeepPatched;
    ApplyThree(from, NodeOps(from, to, leq, order), EdgeOps(from, to, order), MetaOps(from, to, order));
    var f := from.fields;
    ArrayPatch(f, "nodes", SortedNodes(from, leq), SortedNodes(to, leq), "/nodes", ["nodes"], order);
    var f1 := f["nodes" := PatchedNodes(from, to, leq)];
    assert f["nodes" := f["nodes"]] == f;
    ArrayPatch(f1, "edges", Edges(from), Edges(to), "/edges", ["edges"], order);
    var f2 := f1["edges" := PatchedEdges(from, to)];
    assert f1["edges" := f1["edges"]] == f1;
    OpsPatchField(f2, "metadata", Some(Obj(Meta(to))), "/metadata", ["metadata"], order);
    PatchedOfContainers(Some(Obj(Meta(from))), Some(Obj(Meta(to))), ["metadata"], order);
  }

  // ── The round trip ───────────────────────────────────────────────────────

  /** All that the round trip promises: node order and the stamped metadata are not in it. */
  ghost predicate Agrees(r: Json, to: Json, leq: Leq) {
    && IsGraph(r) && IsGraph(to)
    && SortedNodes(r, leq) == SortedNodes(to, leq)
    && Edges(r) == Edges(to)
    && r.fields["version"] == to.fields["version"]
    && forall k :: k !in STAMPED ==> Lookup(Meta(r), k) == Lookup(Meta(to), k)
  }

  /** Nothing confuses the comparison: see GraphDiff.Reproducible. */
  ghost predicate DiffIsFaithful(from: Json, to: Json, leq: Leq)
    requires IsGraph(from) && IsGraph(to)
  {
    && DeepReproducible(Arr(SortedNodes(from, leq)), Arr(SortedNodes(to, leq)))
    && DeepReproducible(Arr(Edges(from)), Arr(Edges(to)))
    && forall k :: k !in STAMPED ==> Reproducible(Lookup(Meta(from), k), Lookup(Meta(to), k))
  }

  lemma NodesReach(from: Json, to: Json, leq: Leq)
    requires IsGraph(from) && IsGraph(to) && TotalPreorder(leq)
    ensures PatchedNodes(from, to, leq).Arr?
    ensures SortBy(PatchedNodes(from, to, leq).items, Id, leq) == SortedNodes(to, leq)
       <==> DeepReproducible(Arr(SortedNodes(from, leq)), Arr(SortedNodes(to, leq)))
  {
    hide DeepEqual;
    SortTwice(Nodes(to), Id, leq);
  }

  lemma EdgesReach(from: Json, to: Json)
    requires IsGraph(from) && IsGraph(to)
    ensures PatchedEdges(from, to).Arr?
    ensures PatchedEdges(from, to).items == Edges(to) <==> DeepReproducible(Arr(Edges(from)), Arr(Edges(to)))
  {
    hide DeepEqual;
  }

  lemma EqualObjectsField(f: map<string, Json>, g: map<string, Json>, k: string)
    requires DeepEqual(Obj(f), Obj(g))
    ensures Lookup(f, k) == Lookup(g, k) <==> Reproducible(Lookup(f, k), Lookup(g, k))
  {
    var a, b := Obj(f), Obj(g);
    assert OwnKeys(a) == f.Keys && OwnKeys(b) == g.Keys;
    assert forall x :: x in f.Keys ==> x in OwnKeys(a) && Property(b, x) == Lookup(g, x);
    SubsetSize(f.Keys, g.Keys);
    if k in f {
      assert k in g;
      assert DeepEqual(Own(a, k), Property(b, k).value);
    }
  }

  lemma MetaFieldReaches(f: map<string, Json>, g: map<string, Json>, at: seq<string>, order: KeyOrder, k: string)
    requires IsOrder(order)
    ensures DeepPatched(Obj(f), Obj(g), at, order).Obj?
    ensures Lookup(DeepPatched(Obj(f), Obj(g), at, order).fields, k) == Lookup(g, k)
       <==> Reproducible(Lookup(f, k), Lookup(g, k))
  {
    if DeepEqual(Obj(f), Obj(g)) {
      EqualObjectsField(f, g, k);
    } else {
      hide DeepEqual;
      ObjectPatched(f, g, at, order);
      hide DeepPatched;
      PatchedReaches(Lookup(f, k), Lookup(g, k), at + [k], order);
    }
  }

  /** The graph applyDiff returns for the diff computeDiff returned. */
  function RoundTrip(from: Json, to: Json, leq: Leq, order: KeyOrder, hash: Json -> Json, now: Json): Option<Json>
    requires IsGraph(from) && IsGraph(to)
  {
    var diff := ComputeDiff(from, to, leq, order);
    Stamp(ApplyOps(from, diff.patches), diff.toVersion, hash, now)
  }

  lemma StampFields(g: map<string, Json>, meta: map<string, Json>, toVersion: Json, hash: Json -> Json, now: Json)
    requires "metadata" in g && g["metadata"] == Obj(meta)
    ensures var r := Stamp(Obj(g), toVersion, hash, now);
            && r.Some? && r.value.Obj?
            && Lookup(r.value.fields, "version") == Some(toVersion)
            && Lookup(r.value.fields, "checksum") == Some(hash(Obj(g)))
            && Lookup(r.value.fields, "metadata")
            == Some(Obj(meta["versionChecksum" := hash(Obj(g))]["updatedAt" := now]))
            && forall k :: k !in {"metadata", "version", "checksum"} ==> Lookup(r.value.fields, k) == Lookup(g, k)
  {
  }

  lemma RoundTripIsStamp(from: Json, to: Json, leq: Leq, order: KeyOrder, hash: Json -> Json, now: Json)
    returns (g: map<string, Json>)
    requires IsGraph(from) && IsGraph(to) && IsOrder(order)
    requires GoodKeys(Obj(Meta(from))) && GoodKeys(Obj(Meta(to)))
    ensures g == from.fields["nodes" := PatchedNodes(from, to, leq)]
                            ["edges" := PatchedEdges(from, to)]
                            ["metadata" := PatchedMeta(from, to, order)]
    ensures RoundTrip(from, to, leq, order, hash, now) == Stamp(Obj(g), to.fields["version"], hash, now)
  {
    hide ApplyOps;
    hide GoodKeys;
    PatchesApplied(from, to, leq, order);
    g := from.fields["nodes" := PatchedNodes(from, to, leq)]
                    ["edges" := PatchedEdges(from, to)]
                    ["metadata" := PatchedMeta(from, to, order)];
  }

  /** What comes back, field by field. */
  lemma RoundTripFields(from: Json, to: Json, leq: Leq, order: KeyOrder, hash: Json -> Json, now: Json)
    requires IsGraph(from) && IsGraph(to) && IsOrder(order)
    requires GoodKeys(Obj(Meta(from))) && GoodKeys(Obj(Meta(to)))
    ensures PatchedMeta(from, to, order).Obj?
    ensures var r := RoundTrip(from, to, leq, order, hash, now);
            && r.Some? && r.value.Obj?
            && Lookup(r.value.fields, "nodes") == Some(PatchedNodes(from, to, leq))
            && Lookup(r.value.fields, "edges") == Some(PatchedEdges(from, to))
            && Lookup(r.value.fields, "version") == Some(to.fields["version"])
            && Lookup(r.value.fields, "metadata").Some? && r.value.fields["metadata"].Obj?
            && forall k :: k !in STAMPED ==>
                 Lookup(r.value.fields["metadata"].fields, k) == Lookup(PatchedMeta(from, to, order).fields, k)
  {
    var g := RoundTripIsStamp(from, to, leq, order, hash, now);
    PatchedMetaIsObject(from, to, order);
    assert to.Obj? && "version" in to.fields && from.Obj?;
    hide *;
    GraphFields(from.fields, PatchedNodes(from, to, leq), PatchedEdges(from, to), PatchedMeta(from, to, order),
                to.fields["version"], hash, now);
  }

  lemma GraphFields(f: map<string, Json>, nodes: Json, edges: Json, meta: Json, toVersion: Json, hash: Json -> Json,
                    now: Json)
    requires meta.Obj?
    ensures var r := Stamp(Obj(f["nodes" := nodes]["edges" := edges]["metadata" := meta]), toVersion, hash, now);
            && r.Some? && r.value.Obj?
            && Lookup(r.value.fields, "nodes") == Some(nodes)
            && Lookup(r.value.fields, "edges") == Some(edges)
            && Lookup(r.value.fields, "version") == Some(toVersion)
            && Lookup(r.value.fields, "metadata").Some? && r.value.fields["metadata"].Obj?
            && forall k :: k !in STAMPED ==> Lookup(r.value.fields["metadata"].fields, k) == Lookup(meta.fields, k)
  {
    StampFields(f["nodes" := nodes]["edges" := edges]["metadata" := meta], meta.fields, toVersion, hash, now);
    hide Stamp;
  }

  lemma LookupStays(f: map<string, Json>, nodes: Json, edges: Json, meta: Json, k: string)
    requires k !in {"nodes", "edges", "metadata"}
    ensures Lookup(f["nodes" := nodes]["edges" := edges]["metadata" := meta], k) == Lookup(f, k)
  {
  }

  lemma PatchedMetaIsObject(from: Json, to: Json, order: KeyOrder)
    requires IsGraph(from) && IsGraph(to) && IsOrder(order)
    ensures PatchedMeta(from, to, order).Obj?
  {
    MetaFieldReaches(Meta(from), Meta(to), ["metadata"], order, "");
  }

  /** Every other field of the graph comes back as it was before. */
  lemma OtherFieldsStay(from: Json, to: Json, leq: Leq, order: KeyOrder, hash: Json -> Json, now: Json, k: string)
    requires IsGraph(from) && IsGraph(to) && IsOrder(order)
    requires GoodKeys(Obj(Meta(from))) && GoodKeys(Obj(Meta(to)))
    requires k !in {"nodes", "edges", "metadata", "version", "checksum"}
    ensures var r := RoundTrip(from, to, leq, order, hash, now);
            r.Some? && r.value.Obj? && Lookup(r.value.fields, k) == Lookup(from.fields, k)
  {
    assert from.Obj? && to.Obj? && "version" in to.fields;
    hide *;
    var g := RoundTripIsStamp(from, to, leq, order, hash, now);
    PatchedMetaIsObject(from, to, order);
    StampFields(g, PatchedMeta(from, to, order).fields, to.fields["version"], hash, now);
    LookupStays(from.fields, PatchedNodes(from, to, leq), PatchedEdges(from, to), PatchedMeta(from, to, order), k);
  }

  /** Applying the computed diff agrees with the target exactly when the comparison was not confused. */
  lemma DiffRoundTripIff(from: Json, to: Json, leq: Leq, order: KeyOrder, hash: Json -> Json, now: Json)
    requires IsGraph(from) && IsGraph(to) && IsOrder(order) && TotalPreorder(leq)
    requires GoodKeys(Obj(Meta(from))) && GoodKeys(Obj(Meta(to)))
    ensures var r := RoundTrip(from, to, leq, order, hash, now);
            r.Some? && (Agrees(r.value, to, leq) <==> DiffIsFaithful(from, to, leq))
  {
    RoundTripFields(from, to, leq, order, hash, now);
    NodesReach(from, to, leq);
    EdgesReach(from, to);
    hide RoundTrip;
    hide PatchedNodes;
    hide PatchedEdges;
    hide GoodKeys;
    hide DeepReproducible;
    hide Reproducible;
    forall k ensures Lookup(PatchedMeta(from, to, order).fields, k) == Lookup(Meta(to), k)
                <==> Reproducible(Lookup(Meta(from), k), Lookup(Meta(to), k)) {
      MetaFieldReaches(Meta(from), Meta(to), ["metadata"], order, k);
    }
    hide PatchedMeta;
    var r := RoundTrip(from, to, leq, order, hash, now).value;
    assert SortedNodes(r, leq) == SortBy(PatchedNodes(from, to, leq).items, Id, leq);
  }

  /** In particular, always, when no array faces an object at a shared path. */
  lemma DiffRoundTrip(from: Json, to: Json, leq: Leq, order: KeyOrder, hash: Json -> Json, now: Json)
    requires IsGraph(from) && IsGraph(to) && IsOrder(order) && TotalPreorder(leq)
    requires GoodKeys(Obj(Meta(from))) && GoodKeys(Obj(Meta(to)))
    requires SameKinds(Arr(SortedNodes(from, leq)), Arr(SortedNodes(to, leq)))
    requires SameKinds(Arr(Edges(from)), Arr(Edges(to))) && SameKinds(Obj(Meta(from)), Obj(Meta(to)))
    ensures var r := RoundTrip(from, to, leq, order, hash, now); r.Some? && Agrees(r.value, to, leq)
  {
    DiffRoundTripIff(from, to, leq, order, hash, now);
    hide RoundTrip;
    SameKindsReproduce(Arr(SortedNodes(from, leq)), Arr(SortedNodes(to, leq)));
    SameKindsReproduce(Arr(Edges(from)), Arr(Edges(to)));
    hide DeepReproducible;
    forall k ensures Reproducible(Lookup(Meta(from), k), Lookup(Meta(to), k)) {
      var u, v := Lookup(Meta(from), k), Lookup(Meta(to), k);
      if BothContainers(u, v) {
        SameKindsReproduce(u.value, v.value);
      }
    }
  }

  /** A graph has no diff with itself. */
  lemma SelfDiffIsEmpty(g: Json, leq: Leq, order: KeyOrder)
    requires IsGraph(g)
    ensures ComputeDiff(g, g, leq, order).patches == []
  {
    DeepEqualReflexive(Arr(SortedNodes(g, leq)));
    DeepEqualReflexive(Arr(Edges(g)));
    DeepEqualReflexive(Obj(Meta(g)));
    hide DeepEqual;
  }
}
