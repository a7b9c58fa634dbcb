/** Classifying a patch into the changes shown to the user, and what the counts of them say. */
module CanvasClassify {
  import opened Seqs
  import opened Json
  import opened GraphDiff
  import opened CanvasPatch
  import opened CanvasRoundTrip

  datatype ChangeType =
    | NodeAdded | NodeRemoved | NodeRenamed | NodeMoved | NodeTypeChanged | NodeConfigChanged
    | EdgeAdded | EdgeRemoved | EdgeRewired

  /** One line of the semantic diff; descriptions are left to the user interface. */
  datatype Change = Change(what: ChangeType, id: string, paths: seq<string>)

  // ── Grouping by item ─────────────────────────────────────────────────────

  /** The first path segment behind the prefix. */
  function GroupOf(prefix: string, path: string): Option<string> {
    if prefix <= path then
      var rest := path[|prefix|..];
      var slash := IndexOf(rest, '/');
      var id := if slash < 0 then rest else rest[..slash];
      if id == "" then None else Some(id)
    else None
  }

  function OpsOf(kind: Kind, patch: seq<Op>, id: string): seq<Op> {
    if patch == [] then []
    else
      var n := |patch| - 1;
      OpsOf(kind, patch[..n], id) + (if GroupOf(Prefix(kind), patch[n].path) == Some(id) then [patch[n]] else [])
  }

  function Groups(kind: Kind, patch: seq<Op>): seq<string> {
    if patch == [] then []
    else
      var n := |patch| - 1;
      var before, id := Groups(kind, patch[..n]), GroupOf(Prefix(kind), patch[n].path);
      if id.None? || id.value in before then before else before + [id.value]
  }

  /** The groups gathered from a patch; an id without operations has none. */
  ghost predicate Gathered(kind: Kind, groups: map<string, seq<Op>>, patch: seq<Op>) {
    forall id: string :: GroupIn(groups, id) == OpsOf(kind, patch, id)
  }

  function GroupIn(groups: map<string, seq<Op>>, id: string): seq<Op> {
    if id in groups then groups[id] else []
  }

  lemma OpsOfSnoc(kind: Kind, patch: seq<Op>, op: Op, id: string)
    ensures OpsOf(kind, patch + [op], id)
         == OpsOf(kind, patch, id) + (if GroupOf(Prefix(kind), op.path) == Some(id) then [op] else [])
  {
    hide GroupOf;
    assert (patch + [op])[..|patch|] == patch;
  }

  lemma GatherOne(kind: Kind, groups: map<string, seq<Op>>, patch: seq<Op>, op: Op)
    requires Gathered(kind, groups, patch)
    ensures var id := GroupOf(Prefix(kind), op.path);
            Gathered(kind, if id.None? then groups else groups[id.value := GroupIn(groups, id.value) + [op]],
                     patch + [op])
  {
    hide OpsOf;
    hide GroupOf;
    var id := GroupOf(Prefix(kind), op.path);
    var after := if id.None? then groups else groups[id.value := GroupIn(groups, id.value) + [op]];
    forall x: string ensures GroupIn(after, x) == OpsOf(kind, patch + [op], x) {
      OpsOfSnoc(kind, patch, op, x);
      assert GroupIn(groups, x) == OpsOf(kind, patch, x);
      assert OpsOf(kind, patch, x) + [] == OpsOf(kind, patch, x);
    }
  }

  method GroupOps(kind: Kind, patch: seq<Op>) returns (keys: seq<string>, groups: map<string, seq<Op>>)
    ensures keys == Groups(kind, patch) && (forall id :: id in keys <==> id in groups)
    ensures Gathered(kind, groups, patch)
  {
    keys, groups := [], map[];
    for i := 0 to |patch|
      invariant keys == Groups(kind, patch[..i]) && forall id :: id in keys <==> id in groups
      invariant Gathered(kind, groups, patch[..i])
    {
      TakeStep(patch, i);
      GatherOne(kind, groups, patch[..i], patch[i]);
      hide GroupOf;
      hide Gathered;
      var id := GroupOf(Prefix(kind), patch[i].path);
      if id.Some? {
        if id.value !in groups {
          keys := keys + [id.value];
        }
        groups := groups[id.value := GroupIn(groups, id.value) + [patch[i]]];
      }
    }
    assert patch[..|patch|] == patch;
  }

  // ── One item ─────────────────────────────────────────────────────────────

  predicate HasAdd(ops: seq<Op>, path: string) {
    exists i :: 0 <= i < |ops| && ops[i].action.Add? && ops[i].path == path
  }

  predicate HasRemove(ops: seq<Op>, path: string) {
    exists i :: 0 <= i < |ops| && ops[i].action.Remove? && ops[i].path == path
  }

  function Paths(ops: seq<Op>): seq<string> {
    seq(|ops|, i requires 0 <= i < |ops| => ops[i].path)
  }

  /** The path behind the item's own; a path without that part is taken whole. */
  function FieldOf(base: string, path: string): string {
    if base + "/" <= path then path[|base| + 1..] else path
  }

  /** A further config operation joins the change already there. */
  function AddConfigPath(changes: seq<Change>, id: string, path: string): seq<Change> {
    if changes == [] then [Change(NodeConfigChanged, id, [path])]
    else
      var n := |changes| - 1;
      if exists i :: 0 <= i < n && changes[i].what == NodeConfigChanged then
        AddConfigPath(changes[..n], id, path) + [changes[n]]
      else if changes[n].what == NodeConfigChanged then
        changes[..n] + [changes[n].(paths := changes[n].paths + [path])]
      else changes + [Change(NodeConfigChanged, id, [path])]
  }

  /** How an operation on a field is shown, if at all. */
  function ShownAs(field: string): Option<ChangeType> {
    if field == "name" || field == "label" then Some(NodeRenamed)
    else if "position" <= field then Some(NodeMoved)
    else if field == "type" || field == "nodeTypeId" then Some(NodeTypeChanged)
    else if "config" <= field then Some(NodeConfigChanged)
    else None
  }

  function FieldChange(changes: seq<Change>, id: string, op: Op): seq<Change> {
    match ShownAs(FieldOf("/nodes/" + id, op.path))
    case None => changes
    case Some(NodeConfigChanged) => AddConfigPath(changes, id, op.path)
    case Some(what) => changes + [Change(what, id, [op.path])]
  }

  function FieldChanges(id: string, ops: seq<Op>): seq<Change> {
    if ops == [] then [] else FieldChange(FieldChanges(id, ops[..|ops| - 1]), id, ops[|ops| - 1])
  }

  function EndsWith(s: string, tail: string): bool {
    |tail| <= |s| && s[|s| - |tail|..] == tail
  }

  predicate Rewires(op: Op) {
    EndsWith(op.path, "/source") || EndsWith(op.path, "/target")
    || EndsWith(op.path, "/sourceHandle") || EndsWith(op.path, "/targetHandle")
  }

  function ClassifyItem(kind: Kind, a: seq<Json>, b: seq<Json>, id: string, ops: seq<Op>): seq<Change> {
    var path := Prefix(kind) + id;
    if HasAdd(ops, path) then [Change(if kind.NodeKind? then NodeAdded else EdgeAdded, id, Paths(ops))]
    else if HasRemove(ops, path) then [Change(if kind.NodeKind? then NodeRemoved else EdgeRemoved, id, Paths(ops))]
    else if Get(a, id).None? || Get(b, id).None? then []
    else
      match kind
      case NodeKind => FieldChanges(id, ops)
      case EdgeKind =>
        if exists i :: 0 <= i < |ops| && Rewires(ops[i]) then [Change(EdgeRewired, id, Paths(ops))] else []
  }

  function ClassifyGroups(kind: Kind, a: seq<Json>, b: seq<Json>, patch: seq<Op>, keys: seq<string>): seq<Change> {
    if keys == [] then []
    else
      var n := |keys| - 1;
      ClassifyGroups(kind, a, b, patch, keys[..n]) + ClassifyItem(kind, a, b, keys[n], OpsOf(kind, patch, keys[n]))
  }

  function Classified(from: Graph, to: Graph, patch: seq<Op>): seq<Change> {
    ClassifyGroups(NodeKind, from.nodes, to.nodes, patch, Groups(NodeKind, patch))
    + ClassifyGroups(EdgeKind, from.edges, to.edges, patch, Groups(EdgeKind, patch))
  }

  method ClassifyKind(kind: Kind, a: seq<Json>, b: seq<Json>, patch: seq<Op>) returns (changes: seq<Change>)
    ensures changes == ClassifyGroups(kind, a, b, patch, Groups(kind, patch))
  {
    var keys, groups := GroupOps(kind, patch);
    hide Groups;
    hide OpsOf;
    hide ClassifyItem;
    changes := [];
    for i := 0 to |keys|
      invariant changes == ClassifyGroups(kind, a, b, patch, keys[..i])
    {
      TakeStep(keys, i);
      assert GroupIn(groups, keys[i]) == OpsOf(kind, patch, keys[i]);
      changes := changes + ClassifyItem(kind, a, b, keys[i], GroupIn(groups, keys[i]));
    }
    assert keys[..|keys|] == keys;
  }

  method ClassifyPatch(from: Graph, to: Graph, patch: seq<Op>) returns (changes: seq<Change>)
    ensures changes == Classified(from, to, patch)
  {
    var nodeChanges := ClassifyKind(NodeKind, from.nodes, to.nodes, patch);
    var edgeChanges := ClassifyKind(EdgeKind, from.edges, to.edges, patch);
    changes := nodeChanges + edgeChanges;
  }

  // ── Counting ─────────────────────────────────────────────────────────────

  function CountOf(changes: seq<Change>, what: ChangeType): nat {
    if changes == [] then 0
    else CountOf(changes[..|changes| - 1], what) + (if changes[|changes| - 1].what == what then 1 else 0)
  }

  /** The nine counts of the summary add up to its total. */
  lemma {:induction false} CountsAddUp(changes: seq<Change>)
    ensures CountOf(changes, NodeAdded) + CountOf(changes, NodeRemoved) + CountOf(changes, NodeRenamed)
          + CountOf(changes, NodeMoved) + CountOf(changes, NodeTypeChanged) + CountOf(changes, NodeConfigChanged)
          + CountOf(changes, EdgeAdded) + CountOf(changes, EdgeRemoved) + CountOf(changes, EdgeRewired)
         == |changes|
  {
    if changes != [] {
      CountsAddUp(changes[..|changes| - 1]);
    }
  }

  lemma {:induction false} CountOfConcat(x: seq<Change>, y: seq<Change>, what: ChangeType)
    ensures CountOf(x + y, what) == CountOf(x, what) + CountOf(y, what)
    decreases |y|
  {
    if y == [] {
      assert x + y == x;
    } else {
      assert (x + y)[..|x + y| - 1] == x + y[..|y| - 1];
      CountOfConcat(x, y[..|y| - 1], what);
    }
  }

  predicate IsFieldChange(what: ChangeType) {
    what == NodeRenamed || what == NodeMoved || what == NodeTypeChanged || what == NodeConfigChanged
  }

  lemma {:induction false} ConfigKeepsKinds(changes: seq<Change>, id: string, path: string)
    requires forall i :: 0 <= i < |changes| ==> IsFieldChange(changes[i].what)
    ensures forall i :: 0 <= i < |AddConfigPath(changes, id, path)| ==>
              IsFieldChange(AddConfigPath(changes, id, path)[i].what)
  {
    if changes != [] {
      ConfigKeepsKinds(changes[..|changes| - 1], id, path);
    }
  }

  lemma {:induction false} FieldChangesKinds(id: string, ops: seq<Op>)
    ensures forall i :: 0 <= i < |FieldChanges(id, ops)| ==> IsFieldChange(FieldChanges(id, ops)[i].what)
  {
    if ops != [] {
      var n := |ops| - 1;
      FieldChangesKinds(id, ops[..n]);
      ConfigKeepsKinds(FieldChanges(id, ops[..n]), id, ops[n].path);
      hide AddConfigPath;
      hide FieldOf;
      hide IsFieldChange;
      assert IsFieldChange(NodeRenamed) && IsFieldChange(NodeMoved) && IsFieldChange(NodeTypeChanged) by {
        FieldKinds();
      }
    }
  }

  lemma FieldKinds()
    ensures IsFieldChange(NodeRenamed) && IsFieldChange(NodeMoved) && IsFieldChange(NodeTypeChanged)
  {
  }

  lemma {:induction false} CountNone(changes: seq<Change>, what: ChangeType)
    requires forall i :: 0 <= i < |changes| ==> changes[i].what != what
    ensures CountOf(changes, what) == 0
  {
    if changes != [] {
      CountNone(changes[..|changes| - 1], what);
    }
  }

  function AddedType(kind: Kind): ChangeType {
    if kind.NodeKind? then NodeAdded else EdgeAdded
  }

  function RemovedType(kind: Kind): ChangeType {
    if kind.NodeKind? then NodeRemoved else EdgeRemoved
  }

  /** An item is reported added or removed at most once, and by nothing but a whole-item operation. */
  lemma ItemCounts(kind: Kind, a: seq<Json>, b: seq<Json>, id: string, ops: seq<Op>)
    ensures var path := Prefix(kind) + id; var changes := ClassifyItem(kind, a, b, id, ops);
            && CountOf(changes, AddedType(kind)) == (if HasAdd(ops, path) then 1 else 0)
            && CountOf(changes, RemovedType(kind)) == (if !HasAdd(ops, path) && HasRemove(ops, path) then 1 else 0)
  {
    var changes := ClassifyItem(kind, a, b, id, ops);
    var path := Prefix(kind) + id;
    if HasAdd(ops, path) || HasRemove(ops, path) {
      assert |changes| == 1;
      OneChange(changes[0], AddedType(kind));
      OneChange(changes[0], RemovedType(kind));
      assert changes == [changes[0]];
    } else {
      FieldChangesKinds(id, ops);
      hide FieldChanges;
      hide HasAdd;
      hide HasRemove;
      CountNone(changes, AddedType(kind));
      CountNone(changes, RemovedType(kind));
    }
  }

  lemma OneChange(c: Change, what: ChangeType)
    ensures CountOf([c], what) == if c.what == what then 1 else 0
  {
    assert [c][..0] == [];
  }

  /** Ids for which the patch holds a whole-item add, or a whole-item remove and no add. */
  ghost predicate Adds(kind: Kind, patch: seq<Op>, id: string) {
    HasAdd(OpsOf(kind, patch, id), Prefix(kind) + id)
  }

  ghost predicate Removes(kind: Kind, patch: seq<Op>, id: string) {
    !HasAdd(OpsOf(kind, patch, id), Prefix(kind) + id) && HasRemove(OpsOf(kind, patch, id), Prefix(kind) + id)
  }

  ghost predicate Counted(kind: Kind, changes: seq<Change>, keys: seq<string>, plus: set<string>, minus: set<string>) {
    && CountOf(changes, AddedType(kind)) == |Restrict(keys, plus)|
    && CountOf(changes, RemovedType(kind)) == |Restrict(keys, minus)|
  }

  lemma ClassifySnoc(kind: Kind, a: seq<Json>, b: seq<Json>, patch: seq<Op>, keys: seq<string>, id: string)
    ensures ClassifyGroups(kind, a, b, patch, keys + [id])
         == ClassifyGroups(kind, a, b, patch, keys) + ClassifyItem(kind, a, b, id, OpsOf(kind, patch, id))
  {
    hide ClassifyItem;
    hide OpsOf;
    assert (keys + [id])[..|keys|] == keys;
  }

  lemma RestrictSnoc(keys: seq<string>, id: string, keep: set<string>)
    ensures |Restrict(keys + [id], keep)| == |Restrict(keys, keep)| + (if id in keep then 1 else 0)
  {
    assert (keys + [id])[..|keys|] == keys;
  }

  lemma CountOneMore(kind: Kind, a: seq<Json>, b: seq<Json>, patch: seq<Op>, keys: seq<string>, id: string,
                     plus: set<string>, minus: set<string>)
    requires Counted(kind, ClassifyGroups(kind, a, b, patch, keys), keys, plus, minus)
    requires Adds(kind, patch, id) <==> id in plus
    requires Removes(kind, patch, id) <==> id in minus
    ensures Counted(kind, ClassifyGroups(kind, a, b, patch, keys + [id]), keys + [id], plus, minus)
  {
    var ops := OpsOf(kind, patch, id);
    ItemCounts(kind, a, b, id, ops);
    hide ClassifyItem;
    hide HasAdd;
    hide HasRemove;
    hide CountOf;
    hide ClassifyGroups;
    hide Restrict;
    hide OpsOf;
    ClassifySnoc(kind, a, b, patch, keys, id);
    var before, now := ClassifyGroups(kind, a, b, patch, keys), ClassifyItem(kind, a, b, id, ops);
    CountOfConcat(before, now, AddedType(kind));
    CountOfConcat(before, now, RemovedType(kind));
    RestrictSnoc(keys, id, plus);
    RestrictSnoc(keys, id, minus);
  }

  lemma {:induction false} GroupCounts(kind: Kind, a: seq<Json>, b: seq<Json>, patch: seq<Op>, keys: seq<string>,
                                       n: nat, plus: set<string>, minus: set<string>)
    requires n <= |keys|
    requires forall id :: id in keys ==> (Adds(kind, patch, id) <==> id in plus)
    requires forall id :: id in keys ==> (Removes(kind, patch, id) <==> id in minus)
    ensures Counted(kind, ClassifyGroups(kind, a, b, patch, keys[..n]), keys[..n], plus, minus)
    decreases n
  {
    if n > 0 {
      hide *;
      GroupCounts(kind, a, b, patch, keys, n - 1, plus, minus);
      assert keys[n - 1] in keys;
      CountOneMore(kind, a, b, patch, keys[..n - 1], keys[n - 1], plus, minus);
      TakeStep(keys, n - 1);
    }
  }

  // ── What the computed patch holds ────────────────────────────────────────

  ghost function AddedIds(a: seq<Json>, b: seq<Json>): set<string> {
    SetOf(Keys(b)) - SetOf(Keys(a))
  }

  lemma GroupIsSegment(prefix: string, path: string)
    ensures GroupOf(prefix, path).Some? ==> GoodKey(GroupOf(prefix, path).value)
  {
  }

  lemma GroupOfItem(prefix: string, id: string)
    requires GoodKey(id)
    ensures GroupOf(prefix, prefix + id) == Some(id)
  {
    assert (prefix + id)[..|prefix|] == prefix && (prefix + id)[|prefix|..] == id;
    assert IndexOf(id, '/') < 0;
  }

  lemma {:induction false} OpsOfMembers(kind: Kind, patch: seq<Op>, id: string, op: Op)
    ensures op in OpsOf(kind, patch, id) <==> op in patch && GroupOf(Prefix(kind), op.path) == Some(id)
    decreases |patch|
  {
    hide GroupOf;
    if patch != [] {
      var n := |patch| - 1;
      OpsOfMembers(kind, patch[..n], id, op);
      assert patch == patch[..n] + [patch[n]];
    }
  }

  lemma {:induction false} GroupsMembers(kind: Kind, patch: seq<Op>, id: string)
    ensures NoDup(Groups(kind, patch))
    ensures id in Groups(kind, patch) <==> exists op :: op in patch && GroupOf(Prefix(kind), op.path) == Some(id)
    decreases |patch|
  {
    hide GroupOf;
    if patch != [] {
      var n := |patch| - 1;
      GroupsMembers(kind, patch[..n], id);
      assert patch == patch[..n] + [patch[n]];
      assert patch[n] in patch;
    }
  }

  /** Below an item's own path: never equal to the path of an item with a good id. */
  lemma DeepPath(prefix: string, k: string, path: string, id: string)
    requires prefix + k + "/" <= path && GoodKey(id)
    ensures path != prefix + id
  {
    var longer := prefix + k + "/";
    assert path[|longer| - 1] == '/';
    assert forall i :: |prefix| <= i < |prefix + id| ==> (prefix + id)[i] == id[i - |prefix|];
  }

  lemma {:induction false} ChangedAreDeep(kind: Kind, keys: seq<string>, a: seq<Json>, b: seq<Json>, order: KeyOrder,
                                          id: string, op: Op)
    requires op in ChangedOps(kind, keys, a, b, order) && GoodKey(id)
    ensures op.path != Prefix(kind) + id
    decreases |keys|
  {
    var n := |keys| - 1;
    var before := ChangedOps(kind, keys[..n], a, b, order);
    var u, v := Get(a, keys[n]), Get(b, keys[n]);
    hide ItemDiff;
    hide Prefix;
    if op in before {
      ChangedAreDeep(kind, keys[..n], a, b, order, id, op);
    } else {
      ItemUnder(kind, keys[n], u.value, v.value, order);
      DeepPath(Prefix(kind), keys[n], op.path, id);
    }
  }

  lemma {:induction false} AddedMembers(prefix: string, keys: seq<string>, a: seq<Json>, b: seq<Json>, op: Op)
    ensures op in AddedOps(prefix, keys, a, b) <==>
              exists k :: k in keys && Get(a, k).None? && Get(b, k).Some? && op == Op(prefix + k, Add(Get(b, k).value))
    decreases |keys|
  {
    hide Get;
    if keys != [] {
      var n := |keys| - 1;
      AddedMembers(prefix, keys[..n], a, b, op);
      assert keys == keys[..n] + [keys[n]];
      assert keys[n] in keys;
    }
  }

  lemma {:induction false} RemovedMembers(prefix: string, keys: seq<string>, b: seq<Json>, op: Op)
    ensures op in RemovedOps(prefix, keys, b) <==>
              exists k :: k in keys && Get(b, k).None? && op == Op(prefix + k, Remove)
    decreases |keys|
  {
    hide Get;
    if keys != [] {
      var n := |keys| - 1;
      RemovedMembers(prefix, keys[..n], b, op);
      assert keys == keys[..n] + [keys[n]];
      assert keys[n] in keys;
    }
  }

  lemma SamePrefix(prefix: string, x: string, y: string)
    requires prefix + x == prefix + y
    ensures x == y
  {
    assert (prefix + x)[|prefix|..] == x && (prefix + y)[|prefix|..] == y;
  }

  /** At an item's own path the patch of its kind has an add for a new id, a remove for a gone one, and nothing else. */
  lemma WholeItemOps(kind: Kind, a: seq<Json>, b: seq<Json>, order: KeyOrder, id: string, op: Op)
    requires GoodKey(id) && op.path == Prefix(kind) + id
    ensures op in KindPatch(kind, a, b, order) <==>
              || (id in AddedIds(a, b) && op.action.Add? && Get(b, id) == Some(op.action.value))
              || (id in AddedIds(b, a) && op.action == Remove)
  {
    var prefix := Prefix(kind);
    hide Prefix;
    KeysAreIds(a);
    KeysAreIds(b);
    hide Get;
    hide Keys;
    var r, d, c := RemovedOps(prefix, Keys(a), b), AddedOps(prefix, Keys(b), a, b),
        ChangedOps(kind, Keys(b), a, b, order);
    RemovedMembers(prefix, Keys(a), b, op);
    AddedMembers(prefix, Keys(b), a, b, op);
    hide RemovedOps;
    hide AddedOps;
    hide ChangedOps;
    if op in c {
      ChangedAreDeep(kind, Keys(b), a, b, order, id, op);
    }
    assert op in KindPatch(kind, a, b, order) <==> op in r || op in d || op in c;
    forall k | prefix + k == op.path ensures k == id {
      SamePrefix(prefix, k, id);
    }
  }

  lemma NotUnder(kind: Kind, other: Kind, ops: seq<Op>, id: string, op: Op)
    requires kind != other && Under(Prefix(other), ops) && op in ops
    ensures op.path != Prefix(kind) + id
  {
    var i :| 0 <= i < |ops| && ops[i] == op;
    OtherPrefix(op.path);
    assert (Prefix(kind) + id)[..|Prefix(kind)|] == Prefix(kind);
  }

  /** Of the whole patch, only the kind's own part touches its items' paths. */
  lemma OwnPart(kind: Kind, from: Graph, to: Graph, order: KeyOrder, id: string, op: Op)
    requires op.path == Prefix(kind) + id
    ensures op in GraphPatch(from, to, order) <==> op in KindPatch(kind, ItemsOf(from, kind), ItemsOf(to, kind), order)
  {
    var n, e := KindPatch(NodeKind, from.nodes, to.nodes, order), KindPatch(EdgeKind, from.edges, to.edges, order);
    KindUnder(NodeKind, from.nodes, to.nodes, order);
    KindUnder(EdgeKind, from.edges, to.edges, order);
    hide KindPatch;
    assert op in n + e <==> op in n || op in e;
    hide Prefix;
    if kind == NodeKind && op in e {
      NotUnder(NodeKind, EdgeKind, e, id, op);
    } else if kind == EdgeKind && op in n {
      NotUnder(EdgeKind, NodeKind, n, id, op);
    }
  }

  lemma ItemOps(kind: Kind, from: Graph, to: Graph, order: KeyOrder, id: string, op: Op)
    requires GoodKey(id) && op.path == Prefix(kind) + id
    ensures op in OpsOf(kind, GraphPatch(from, to, order), id) <==>
              || (id in AddedIds(ItemsOf(from, kind), ItemsOf(to, kind)) && op.action.Add?
                  && Get(ItemsOf(to, kind), id) == Some(op.action.value))
              || (id in AddedIds(ItemsOf(to, kind), ItemsOf(from, kind)) && op.action.Remove?)
  {
    hide *;
    OpsOfMembers(kind, GraphPatch(from, to, order), id, op);
    GroupOfItem(Prefix(kind), id);
    OwnPart(kind, from, to, order, id, op);
    WholeItemOps(kind, ItemsOf(from, kind), ItemsOf(to, kind), order, id, op);
  }

  lemma AddedHasItem(a: seq<Json>, b: seq<Json>, id: string)
    requires id in AddedIds(a, b)
    ensures Get(b, id).Some? && id !in AddedIds(b, a)
  {
    KeysAreIds(b);
  }

  /** The patch adds exactly the new ids and removes exactly the gone ones. */
  lemma PatchIsExact(kind: Kind, from: Graph, to: Graph, order: KeyOrder, id: string)
    requires GoodKey(id)
    ensures var patch := GraphPatch(from, to, order);
            && (Adds(kind, patch, id) <==> id in AddedIds(ItemsOf(from, kind), ItemsOf(to, kind)))
            && (Removes(kind, patch, id) <==> id in AddedIds(ItemsOf(to, kind), ItemsOf(from, kind)))
  {
    var a, b, path := ItemsOf(from, kind), ItemsOf(to, kind), Prefix(kind) + id;
    var ops := OpsOf(kind, GraphPatch(from, to, order), id);
    hide GraphPatch;
    hide OpsOf;
    hide Prefix;
    hide ItemsOf;
    hide Get;
    forall op: Op | op.path == path
      ensures op in ops <==>
                || (id in AddedIds(a, b) && op.action.Add? && Get(b, id) == Some(op.action.value))
                || (id in AddedIds(b, a) && op.action.Remove?)
    {
      ItemOps(kind, from, to, order, id, op);
    }
    hide AddedIds;
    if id in AddedIds(a, b) {
      AddedHasItem(a, b, id);
      InOps(ops, Op(path, Add(Get(b, id).value)));
    }
    if id in AddedIds(b, a) {
      AddedHasItem(b, a, id);
      InOps(ops, Op(path, Remove));
    }
    NoneInOps(ops, path);
  }

  lemma InOps(ops: seq<Op>, op: Op)
    requires op in ops
    ensures op.action.Add? ==> HasAdd(ops, op.path)
    ensures op.action.Remove? ==> HasRemove(ops, op.path)
  {
  }

  lemma NoneInOps(ops: seq<Op>, path: string)
    ensures HasAdd(ops, path) <==> exists op :: op in ops && op.action.Add? && op.path == path
    ensures HasRemove(ops, path) <==> exists op :: op in ops && op.action.Remove? && op.path == path
  {
    if HasAdd(ops, path) {
      var i :| 0 <= i < |ops| && ops[i].action.Add? && ops[i].path == path;
      assert ops[i] in ops;
    }
    if HasRemove(ops, path) {
      var i :| 0 <= i < |ops| && ops[i].action.Remove? && ops[i].path == path;
      assert ops[i] in ops;
    }
  }

  lemma GroupHasItem(kind: Kind, patch: seq<Op>, id: string)
    requires GoodKey(id) && (Adds(kind, patch, id) || Removes(kind, patch, id))
    ensures id in Groups(kind, patch)
  {
    var ops, path := OpsOf(kind, patch, id), Prefix(kind) + id;
    NoneInOps(ops, path);
    hide HasAdd;
    hide HasRemove;
    hide Groups;
    var op :| op in ops && op.path == path;
    OpsOfMembers(kind, patch, id, op);
    GroupsMembers(kind, patch, id);
  }

  lemma {:induction false} GroupsAreSegments(kind: Kind, patch: seq<Op>)
    ensures forall id :: id in Groups(kind, patch) ==> GoodKey(id)
    decreases |patch|
  {
    if patch != [] {
      hide GroupOf;
      hide GoodKey;
      var n := |patch| - 1;
      GroupsAreSegments(kind, patch[..n]);
      GroupIsSegment(Prefix(kind), patch[n].path);
    }
  }

  lemma RestrictCovers(keys: seq<string>, keep: set<string>)
    requires NoDup(keys) && forall id :: id in keep ==> id in keys
    ensures |Restrict(keys, keep)| == |keep|
  {
    RestrictMembers(keys, keep);
    NoDupSize(Restrict(keys, keep));
    assert SetOf(Restrict(keys, keep)) == keep;
  }

  lemma NamedSegments(items: seq<Json>, id: string)
    requires Named(items) && id in Keys(items)
    ensures GoodKey(id)
  {
    NamedKeys(items);
    var i :| 0 <= i < |Keys(items)| && Keys(items)[i] == id;
  }

  lemma KindCounts(kind: Kind, from: Graph, to: Graph, order: KeyOrder)
    requires Named(ItemsOf(from, kind)) && Named(ItemsOf(to, kind))
    ensures var a, b, patch := ItemsOf(from, kind), ItemsOf(to, kind), GraphPatch(from, to, order);
            var changes := ClassifyGroups(kind, a, b, patch, Groups(kind, patch));
            && CountOf(changes, AddedType(kind)) == |AddedIds(a, b)|
            && CountOf(changes, RemovedType(kind)) == |AddedIds(b, a)|
  {
    var a, b, patch := ItemsOf(from, kind), ItemsOf(to, kind), GraphPatch(from, to, order);
    var keys, plus, minus := Groups(kind, patch), AddedIds(a, b), AddedIds(b, a);
    GroupsAreSegments(kind, patch);
    GroupsMembers(kind, patch, "");
    assert forall id :: id in plus ==> id in Keys(b);
    assert forall id :: id in minus ==> id in Keys(a);
    hide *;
    forall id | GoodKey(id)
      ensures (Adds(kind, patch, id) <==> id in plus) && (Removes(kind, patch, id) <==> id in minus) {
      PatchIsExact(kind, from, to, order, id);
    }
    forall id | id in plus || id in minus ensures id in keys {
      if id in plus {
        NamedSegments(b, id);
      } else {
        NamedSegments(a, id);
      }
      GroupHasItem(kind, patch, id);
    }
    GroupCounts(kind, a, b, patch, keys, |keys|, plus, minus);
    assert keys[..|keys|] == keys;
    CountedMeans(kind, ClassifyGroups(kind, a, b, patch, keys), keys, plus, minus);
    RestrictCovers(keys, plus);
    RestrictCovers(keys, minus);
  }

  lemma CountedMeans(kind: Kind, changes: seq<Change>, keys: seq<string>, plus: set<string>, minus: set<string>)
    requires Counted(kind, changes, keys, plus, minus)
    ensures CountOf(changes, AddedType(kind)) == |Restrict(keys, plus)|
    ensures CountOf(changes, RemovedType(kind)) == |Restrict(keys, minus)|
  {
  }

  lemma SetBalance(a: set<string>, b: set<string>)
    ensures |a| + |b - a| - |a - b| == |b|
  {
    assert b == (b - a) + (a * b) && a == (a - b) + (a * b);
    assert |b| == |b - a| + |a * b|;
    assert |a| == |a - b| + |a * b|;
  }

  lemma ItemBalance(a: seq<Json>, b: seq<Json>)
    ensures |Keys(a)| + |AddedIds(a, b)| - |AddedIds(b, a)| == |Keys(b)|
  {
    KeysAreIds(a);
    KeysAreIds(b);
    NoDupSize(Keys(a));
    NoDupSize(Keys(b));
    SetBalance(SetOf(Keys(a)), SetOf(Keys(b)));
  }

  /** A kind's changes carry only that kind's types. */
  lemma {:induction false} ForeignCounts(kind: Kind, other: Kind, a: seq<Json>, b: seq<Json>, patch: seq<Op>,
                                         keys: seq<string>)
    requires kind != other
    ensures CountOf(ClassifyGroups(other, a, b, patch, keys), AddedType(kind)) == 0
    ensures CountOf(ClassifyGroups(other, a, b, patch, keys), RemovedType(kind)) == 0
    decreases |keys|
  {
    if keys != [] {
      var n := |keys| - 1;
      ForeignCounts(kind, other, a, b, patch, keys[..n]);
      var now := ClassifyItem(other, a, b, keys[n], OpsOf(other, patch, keys[n]));
      ForeignItem(kind, other, a, b, keys[n], OpsOf(other, patch, keys[n]));
      hide ClassifyItem;
      hide CountOf;
      CountOfConcat(ClassifyGroups(other, a, b, patch, keys[..n]), now, AddedType(kind));
      CountOfConcat(ClassifyGroups(other, a, b, patch, keys[..n]), now, RemovedType(kind));
    }
  }

  lemma ForeignItem(kind: Kind, other: Kind, a: seq<Json>, b: seq<Json>, id: string, ops: seq<Op>)
    requires kind != other
    ensures CountOf(ClassifyItem(other, a, b, id, ops), AddedType(kind)) == 0
    ensures CountOf(ClassifyItem(other, a, b, id, ops), RemovedType(kind)) == 0
  {
    FieldChangesKinds(id, ops);
    hide FieldChanges;
    hide HasAdd;
    hide HasRemove;
    hide Get;
    CountNone(ClassifyItem(other, a, b, id, ops), AddedType(kind));
    CountNone(ClassifyItem(other, a, b, id, ops), RemovedType(kind));
  }

  /**
   * The summary is honest about items: its added and removed counts are the numbers of new and gone
   * ids, so they account for the difference in size, for nodes and edges alike.
   */
  lemma CountsAreConserved(from: Graph, to: Graph, order: KeyOrder)
    requires Named(from.nodes) && Named(to.nodes) && Named(from.edges) && Named(to.edges)
    ensures var changes := Classified(from, to, GraphPatch(from, to, order));
            && CountOf(changes, NodeAdded) == |AddedIds(from.nodes, to.nodes)|
            && CountOf(changes, NodeRemoved) == |AddedIds(to.nodes, from.nodes)|
            && CountOf(changes, EdgeAdded) == |AddedIds(from.edges, to.edges)|
            && CountOf(changes, EdgeRemoved) == |AddedIds(to.edges, from.edges)|
            && |Keys(from.nodes)| + CountOf(changes, NodeAdded) - CountOf(changes, NodeRemoved) == |Keys(to.nodes)|
            && |Keys(from.edges)| + CountOf(changes, EdgeAdded) - CountOf(changes, EdgeRemoved) == |Keys(to.edges)|
  {
    var patch := GraphPatch(from, to, order);
    var n := ClassifyGroups(NodeKind, from.nodes, to.nodes, patch, Groups(NodeKind, patch));
    var e := ClassifyGroups(EdgeKind, from.edges, to.edges, patch, Groups(EdgeKind, patch));
    hide GraphPatch;
    hide Groups;
    hide ClassifyGroups;
    hide CountOf;
    hide Keys;
    hide AddedIds;
    KindCounts(NodeKind, from, to, order);
    KindCounts(EdgeKind, from, to, order);
    ForeignCounts(NodeKind, EdgeKind, from.edges, to.edges, patch, Groups(EdgeKind, patch));
    ForeignCounts(EdgeKind, NodeKind, from.nodes, to.nodes, patch, Groups(NodeKind, patch));
    CountOfConcat(n, e, NodeAdded);
    CountOfConcat(n, e, NodeRemoved);
    CountOfConcat(n, e, EdgeAdded);
    CountOfConcat(n, e, EdgeRemoved);
    ItemBalance(from.nodes, to.nodes);
    ItemBalance(from.edges, to.edges);
  }

  lemma {:induction false} InGroups(kind: Kind, a: seq<Json>, b: seq<Json>, patch: seq<Op>, keys: seq<string>,
                                    id: string, c: Change)
    requires id in keys && c in ClassifyItem(kind, a, b, id, OpsOf(kind, patch, id))
    ensures c in ClassifyGroups(kind, a, b, patch, keys)
    decreases |keys|
  {
    hide ClassifyItem;
    hide OpsOf;
    var n := |keys| - 1;
    if keys[n] != id {
      assert keys == keys[..n] + [keys[n]];
      InGroups(kind, a, b, patch, keys[..n], id, c);
    }
  }

  /** Every new id is reported added, every gone one removed; with the counts above, exactly once. */
  lemma EachIsReported(kind: Kind, from: Graph, to: Graph, order: KeyOrder, id: string)
    requires Named(ItemsOf(from, kind)) && Named(ItemsOf(to, kind))
    ensures var a, b, patch := ItemsOf(from, kind), ItemsOf(to, kind), GraphPatch(from, to, order);
            var paths := Paths(OpsOf(kind, patch, id));
            && (id in AddedIds(a, b) ==> Change(AddedType(kind), id, paths) in Classified(from, to, patch))
            && (id in AddedIds(b, a) ==> Change(RemovedType(kind), id, paths) in Classified(from, to, patch))
  {
    var a, b, patch := ItemsOf(from, kind), ItemsOf(to, kind), GraphPatch(from, to, order);
    var ops := OpsOf(kind, patch, id);
    assert id in AddedIds(a, b) ==> id in Keys(b);
    assert id in AddedIds(b, a) ==> id in Keys(a);
    hide GraphPatch;
    hide OpsOf;
    hide Groups;
    hide ClassifyGroups;
    hide AddedIds;
    hide Keys;
    if id in AddedIds(a, b) || id in AddedIds(b, a) {
      if id in AddedIds(a, b) {
        NamedSegments(b, id);
      } else {
        NamedSegments(a, id);
      }
      PatchIsExact(kind, from, to, order, id);
      GroupHasItem(kind, patch, id);
      hide HasAdd;
      hide HasRemove;
      hide FieldChanges;
      hide Get;
      var change := Change(if id in AddedIds(a, b) then AddedType(kind) else RemovedType(kind), id, Paths(ops));
      assert ClassifyItem(kind, a, b, id, ops) == [change];
      InGroups(kind, a, b, patch, Groups(kind, patch), id, change);
      InClassified(kind, from, to, patch, change);
      if id in AddedIds(a, b) {
        AddedHasItem(a, b, id);
      }
    }
  }

  lemma InClassified(kind: Kind, from: Graph, to: Graph, patch: seq<Op>, c: Change)
    requires c in ClassifyGroups(kind, ItemsOf(from, kind), ItemsOf(to, kind), patch, Groups(kind, patch))
    ensures c in Classified(from, to, patch)
  {
  }
}
