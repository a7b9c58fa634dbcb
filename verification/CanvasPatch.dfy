/** The editor's patch between two graph snapshots, and its applier. */
module CanvasPatch {
  import opened Seqs
  import opened Json
  import opened GraphDiff

  /** Nodes and edges are JSON objects with an "id". */
  datatype Graph = Graph(nodes: seq<Json>, edges: seq<Json>)

  datatype Kind = NodeKind | EdgeKind

  function Prefix(kind: Kind): string {
    match kind
    case NodeKind => "/nodes/"
    case EdgeKind => "/edges/"
  }

  function ItemsOf(g: Graph, kind: Kind): seq<Json> {
    match kind
    case NodeKind => g.nodes
    case EdgeKind => g.edges
  }

  // ── Ids ──────────────────────────────────────────────────────────────────

  function IdOf(item: Json): Option<string> {
    if item.Obj? && "id" in item.fields && item.fields["id"].Str? then Some(item.fields["id"].s) else None
  }

  /** The map built from the list: a later item replaces an earlier one with its id. */
  function Get(items: seq<Json>, id: string): (r: Option<Json>)
    ensures r.Some? ==> r.value in items && IdOf(r.value) == Some(id)
  {
    if items == [] then None
    else if IdOf(items[|items| - 1]) == Some(id) then Some(items[|items| - 1])
    else Get(items[..|items| - 1], id)
  }

  /** The map's keys, in the order they first occur. */
  function Keys(items: seq<Json>): seq<string> {
    if items == [] then []
    else
      var before, id := Keys(items[..|items| - 1]), IdOf(items[|items| - 1]);
      if id.None? || id.value in before then before else before + [id.value]
  }

  lemma {:induction false} KeysAreIds(items: seq<Json>)
    ensures NoDup(Keys(items))
    ensures forall id :: id in Keys(items) <==> Get(items, id).Some?
  {
    if items != [] {
      KeysAreIds(items[..|items| - 1]);
    }
  }

  /** Every item has an id of its own. */
  ghost predicate DistinctIds(items: seq<Json>) {
    && (forall i :: 0 <= i < |items| ==> IdOf(items[i]).Some?)
    && (forall i, j :: 0 <= i < j < |items| ==> IdOf(items[i]) != IdOf(items[j]))
  }

  lemma UniqueSnoc(front: seq<Json>, x: Json)
    ensures DistinctIds(front + [x]) <==>
              DistinctIds(front) && IdOf(x).Some? && forall i :: 0 <= i < |front| ==> IdOf(front[i]) != IdOf(x)
  {
    var items := front + [x];
    hide IdOf;
    assert items[|front|] == x;
    assert forall i :: 0 <= i < |front| ==> items[i] == front[i];
  }

  lemma {:induction false} GetIff(items: seq<Json>, id: string)
    ensures Get(items, id).None? <==> forall i :: 0 <= i < |items| ==> IdOf(items[i]) != Some(id)
  {
    if items != [] {
      var n := |items| - 1;
      hide IdOf;
      GetIff(items[..n], id);
      assert forall i :: 0 <= i < n ==> items[..n][i] == items[i];
    }
  }

  /** There are as many ids as items if and only if every item has an id of its own. */
  lemma {:induction false} KeysCountIff(items: seq<Json>)
    ensures |Keys(items)| <= |items|
    ensures |Keys(items)| == |items| <==> DistinctIds(items)
  {
    if items != [] {
      var front, x := items[..|items| - 1], items[|items| - 1];
      assert items == front + [x];
      KeysCountIff(front);
      KeysAreIds(front);
      UniqueSnoc(front, x);
      if IdOf(x).Some? {
        GetIff(front, IdOf(x).value);
      }
      hide DistinctIds;
      hide IdOf;
    }
  }

  // ── computeGraphPatch ────────────────────────────────────────────────────

  function RemovedOps(prefix: string, keys: seq<string>, b: seq<Json>): seq<Op> {
    if keys == [] then []
    else
      var n := |keys| - 1;
      RemovedOps(prefix, keys[..n], b) + (if Get(b, keys[n]).None? then [Op(prefix + keys[n], Remove)] else [])
  }

  function AddedOps(prefix: string, keys: seq<string>, a: seq<Json>, b: seq<Json>): seq<Op> {
    if keys == [] then []
    else
      var n := |keys| - 1;
      AddedOps(prefix, keys[..n], a, b)
      + (if Get(a, keys[n]).None? && Get(b, keys[n]).Some?
         then [Op(prefix + keys[n], Add(Get(b, keys[n]).value))] else [])
  }

  /** JSON.stringify(v ?? null): a missing value prints as null. */
  function OrNull(v: Option<Json>): Json {
    match v
    case None => Null
    case Some(j) => j
  }

  function DiffField(path: string, from: Option<Json>, to: Option<Json>): seq<Op> {
    if OrNull(from) == OrNull(to) then []
    else if from.None? then [Op(path, Add(OrNull(to)))]
    else if to.None? then [Op(path, Remove)]
    else [Op(path, Replace(to.value))]
  }

  function FieldsOf(v: Option<Json>): map<string, Json> {
    if v.Some? && v.value.Obj? then v.value.fields else map[]
  }

  function DiffKeys(path: string, from: map<string, Json>, to: map<string, Json>, keys: seq<string>): seq<Op> {
    if keys == [] then []
    else
      var n := |keys| - 1;
      DiffKeys(path, from, to, keys[..n]) + DiffField(path + "/" + keys[n], Lookup(from, keys[n]), Lookup(to, keys[n]))
  }

  predicate Present(v: Option<Json>) {
    v.Some? && v.value != Null
  }

  function DiffCoordinate(path: string, from: Option<Json>, to: Option<Json>, axis: string): seq<Op> {
    var u, v := Lookup(FieldsOf(from), axis), Lookup(FieldsOf(to), axis);
    if u != v then [Op(path + "/" + axis, Replace(OrNull(v)))] else []
  }

  function DiffPosition(path: string, from: Option<Json>, to: Option<Json>): seq<Op> {
    if Present(from) && Present(to) then DiffCoordinate(path, from, to, "x") + DiffCoordinate(path, from, to, "y")
    else if Present(to) then [Op(path, Add(to.value))]
    else if Present(from) then [Op(path, Remove)]
    else []
  }

  const NODE_FIELDS: seq<string> := ["name", "type", "nodeTypeId", "position", "config", "inputHandles",
                                     "outputHandles", "retryPolicy", "compensation", "approvalGate",
                                     "loop", "childWorkflow"]
  const EDGE_FIELDS: seq<string> := ["source", "target", "sourceHandle", "targetHandle", "type", "label", "condition"]

  function FieldList(kind: Kind): seq<string> {
    match kind
    case NodeKind => NODE_FIELDS
    case EdgeKind => EDGE_FIELDS
  }

  function OneField(kind: Kind, path: string, field: string, from: Option<Json>, to: Option<Json>,
                    order: KeyOrder): seq<Op> {
    if kind.NodeKind? && field == "position" then DiffPosition(path, from, to)
    else if kind.NodeKind? && field == "config" then
      DiffKeys(path, FieldsOf(from), FieldsOf(to), order([path], FieldsOf(from).Keys + FieldsOf(to).Keys))
    else DiffField(path, from, to)
  }

  function DiffFields(kind: Kind, base: string, from: Json, to: Json, fields: seq<string>, order: KeyOrder): seq<Op> {
    if fields == [] then []
    else
      var n := |fields| - 1;
      DiffFields(kind, base, from, to, fields[..n], order)
      + OneField(kind, base + "/" + fields[n], fields[n], Lookup(FieldsOf(Some(from)), fields[n]),
                 Lookup(FieldsOf(Some(to)), fields[n]), order)
  }

  /** diffNodeFields and diffEdgeFields */
  function ItemDiff(kind: Kind, id: string, from: Json, to: Json, order: KeyOrder): seq<Op> {
    DiffFields(kind, Prefix(kind) + id, from, to, FieldList(kind), order)
  }

  function ChangedOps(kind: Kind, keys: seq<string>, a: seq<Json>, b: seq<Json>, order: KeyOrder): seq<Op> {
    if keys == [] then []
    else
      var n := |keys| - 1;
      var u, v := Get(a, keys[n]), Get(b, keys[n]);
      ChangedOps(kind, keys[..n], a, b, order)
      + (if u.Some? && v.Some? then ItemDiff(kind, keys[n], u.value, v.value, order) else [])
  }

  function KindPatch(kind: Kind, a: seq<Json>, b: seq<Json>, order: KeyOrder): seq<Op> {
    RemovedOps(Prefix(kind), Keys(a), b) + AddedOps(Prefix(kind), Keys(b), a, b)
    + ChangedOps(kind, Keys(b), a, b, order)
  }

  function GraphPatch(from: Graph, to: Graph, order: KeyOrder): seq<Op> {
    KindPatch(NodeKind, from.nodes, to.nodes, order) + KindPatch(EdgeKind, from.edges, to.edges, order)
  }

  method CollectRemoved(prefix: string, keys: seq<string>, b: seq<Json>) returns (ops: seq<Op>)
    ensures ops == RemovedOps(prefix, keys, b)
  {
    ops := [];
    for i := 0 to |keys|
      invariant ops == RemovedOps(prefix, keys[..i], b)
    {
      TakeStep(keys, i);
      if Get(b, keys[i]).None? {
        ops := ops + [Op(prefix + keys[i], Remove)];
      }
    }
    assert keys[..|keys|] == keys;
  }

  method CollectAdded(prefix: string, keys: seq<string>, a: seq<Json>, b: seq<Json>) returns (ops: seq<Op>)
    ensures ops == AddedOps(prefix, keys, a, b)
  {
    ops := [];
    for i := 0 to |keys|
      invariant ops == AddedOps(prefix, keys[..i], a, b)
    {
      TakeStep(keys, i);
      var item := Get(b, keys[i]);
      if Get(a, keys[i]).None? && item.Some? {
        ops := ops + [Op(prefix + keys[i], Add(item.value))];
      }
    }
    assert keys[..|keys|] == keys;
  }

  method CollectChanged(kind: Kind, keys: seq<string>, a: seq<Json>, b: seq<Json>, order: KeyOrder)
    returns (ops: seq<Op>)
    ensures ops == ChangedOps(kind, keys, a, b, order)
  {
    ops := [];
    for i := 0 to |keys|
      invariant ops == ChangedOps(kind, keys[..i], a, b, order)
    {
      TakeStep(keys, i);
      hide ItemDiff;
      var fromItem, toItem := Get(a, keys[i]), Get(b, keys[i]);
      if fromItem.Some? && toItem.Some? {
        ops := ops + ItemDiff(kind, keys[i], fromItem.value, toItem.value, order);
      }
    }
    assert keys[..|keys|] == keys;
  }

  method ComputeKindPatch(kind: Kind, a: seq<Json>, b: seq<Json>, order: KeyOrder) returns (ops: seq<Op>)
    ensures ops == KindPatch(kind, a, b, order)
  {
    var removed := CollectRemoved(Prefix(kind), Keys(a), b);
    var added := CollectAdded(Prefix(kind), Keys(b), a, b);
    var changed := CollectChanged(kind, Keys(b), a, b, order);
    ops := removed + added + changed;
  }

  method ComputeGraphPatch(from: Graph, to: Graph, order: KeyOrder) returns (ops: seq<Op>)
    ensures ops == GraphPatch(from, to, order)
  {
    var nodeOps := ComputeKindPatch(NodeKind, from.nodes, to.nodes, order);
    var edgeOps := ComputeKindPatch(EdgeKind, from.edges, to.edges, order);
    ops := nodeOps + edgeOps;
  }

  // ── applyPatch ───────────────────────────────────────────────────────────

  /** The characters a dot in a regular expression does not match. */
  predicate LineEnd(c: char) {
    c == '\n' || c == '\r' || c == '\U{2028}' || c == '\U{2029}'
  }

  /** The greedy first group takes everything behind the prefix, so no field is ever split off. */
  function MatchRest(prefix: string, path: string): Option<string> {
    if prefix < path && forall i :: |prefix| <= i < |path| ==> !LineEnd(path[i]) then Some(path[|prefix|..]) else None
  }

  /** { ...n } */
  function Spread(j: Json): Json {
    match j
    case Obj(_) => j
    case Arr(s) => Obj(map k | k in OwnKeys(j) :: Own(j, k))
    case Str(s) => Obj(map k | k in OwnKeys(Letters(s)) :: Own(Letters(s), k))
    case _ => Obj(map[])
  }

  function Letters(s: string): Json {
    Arr(seq(|s|, i requires 0 <= i < |s| => Str([s[i]])))
  }

  function SpreadAll(items: seq<Json>): (r: seq<Json>)
    ensures |r| == |items| && forall i :: 0 <= i < |r| ==> r[i] == Spread(items[i])
  {
    seq(|items|, i requires 0 <= i < |items| => Spread(items[i]))
  }

  /** filter((n) => n.id !== id) */
  function Without(items: seq<Json>, id: string): seq<Json> {
    if items == [] then []
    else
      var n := |items| - 1;
      Without(items[..n], id) + (if IdOf(items[n]) == Some(id) then [] else [items[n]])
  }

  /** What an operation does to the list its path names; a replace is matched but does nothing. */
  function ApplyTo(prefix: string, items: seq<Json>, op: Op): seq<Json> {
    match MatchRest(prefix, op.path)
    case None => items
    case Some(id) =>
      match op.action
      case Add(v) => SpreadAll(items) + [v]
      case Remove => Without(SpreadAll(items), id)
      case Replace(_) => items
  }

  /** A path matches at most one of the two patterns. */
  function ApplyOp(g: Graph, op: Op): Graph {
    Graph(ApplyTo("/nodes/", g.nodes, op), ApplyTo("/edges/", g.edges, op))
  }

  function ApplyPatchOps(g: Graph, ops: seq<Op>): Graph
    decreases |ops|
  {
    if ops == [] then g else ApplyOp(ApplyPatchOps(g, ops[..|ops| - 1]), ops[|ops| - 1])
  }

  method ApplyPatch(g: Graph, patch: seq<Op>) returns (result: Graph)
    ensures result == ApplyPatchOps(g, patch)
  {
    hide ApplyOp;
    result := g;
    for i := 0 to |patch|
      invariant result == ApplyPatchOps(g, patch[..i])
    {
      TakeStep(patch, i);
      result := ApplyOp(result, patch[i]);
    }
    assert patch[..|patch|] == patch;
  }
}
