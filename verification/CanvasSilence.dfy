/** When the semantic diff shows nothing, and when the patch is empty: not the same. */
module CanvasSilence {
  import opened Seqs
  import opened Json
  import opened GraphDiff
  import opened CanvasPatch
  import opened CanvasRoundTrip
  import opened CanvasClassify
  import opened CanvasMeaning

  ghost predicate SameIds(a: seq<Json>, b: seq<Json>) {
    forall id :: id in Keys(a) <==> id in Keys(b)
  }

  predicate Kept(a: seq<Json>, b: seq<Json>, id: string) {
    Get(a, id).Some? && Get(b, id).Some?
  }

  // ── What is shown ────────────────────────────────────────────────────────

  predicate FieldChanged(u: Json, v: Json, field: string) {
    OrNull(FieldIn(u, field)) != OrNull(FieldIn(v, field))
  }

  /** The differences of a kept item that the user is told of. */
  ghost predicate ItemShows(kind: Kind, u: Json, v: Json) {
    match kind
    case NodeKind =>
      || FieldChanged(u, v, "name") || FieldChanged(u, v, "type") || FieldChanged(u, v, "nodeTypeId")
      || PositionDiffers(FieldIn(u, "position"), FieldIn(v, "position"))
      || ConfigDiffers(FieldIn(u, "config"), FieldIn(v, "config"))
    case EdgeKind =>
      || FieldChanged(u, v, "source") || FieldChanged(u, v, "target")
      || FieldChanged(u, v, "sourceHandle") || FieldChanged(u, v, "targetHandle")
  }

  ghost predicate KindSilent(kind: Kind, a: seq<Json>, b: seq<Json>) {
    SameIds(a, b) && forall id :: Kept(a, b, id) ==> !ItemShows(kind, Get(a, id).value, Get(b, id).value)
  }

  /** What is shown of one item. */
  function ShownOf(kind: Kind, from: Graph, to: Graph, order: KeyOrder, id: string): seq<Change> {
    ClassifyItem(kind, ItemsOf(from, kind), ItemsOf(to, kind), id, OpsOf(kind, GraphPatch(from, to, order), id))
  }

  lemma KeptNodeKinds(from: Graph, to: Graph, order: KeyOrder, id: string)
    requires Named(from.nodes) && Named(to.nodes) && Kept(from.nodes, to.nodes, id)
    ensures forall i :: 0 <= i < |ShownFor(from, to, order, id)| ==>
              IsFieldChange(ShownFor(from, to, order, id)[i].what)
  {
    var ops := OpsOf(NodeKind, GraphPatch(from, to, order), id);
    KeptIsNeither(NodeKind, from, to, order, id);
    NodeForm(from.nodes, to.nodes, id, ops);
    FieldChangesKinds(id, ops);
    hide FieldChanges;
    hide ClassifyItem;
    hide GraphPatch;
    hide OpsOf;
    hide Get;
  }

  lemma OnlyFieldChanges(shown: seq<Change>)
    requires forall i :: 0 <= i < |shown| ==> IsFieldChange(shown[i].what)
    ensures shown == [] <==> !Shows(shown, NodeRenamed) && !Shows(shown, NodeMoved) && !Shows(shown, NodeTypeChanged)
                             && !Shows(shown, NodeConfigChanged)
  {
    if shown != [] {
      assert IsFieldChange(shown[0].what);
      assert Shows(shown, shown[0].what);
    }
  }

  lemma KeptNodeSilentIff(from: Graph, to: Graph, order: KeyOrder, id: string)
    requires IsOrder(order) && Named(from.nodes) && Named(to.nodes) && Kept(from.nodes, to.nodes, id)
    ensures ShownFor(from, to, order, id) == [] <==>
              !ItemShows(NodeKind, Get(from.nodes, id).value, Get(to.nodes, id).value)
  {
    KeptNodeKinds(from, to, order, id);
    KeptNodeIsDescribed(from, to, order, id);
    hide ShownFor;
    hide Shows;
    hide Get;
    hide Named;
    OnlyFieldChanges(ShownFor(from, to, order, id));
  }

  lemma KeptSilentIff(kind: Kind, from: Graph, to: Graph, order: KeyOrder, id: string)
    requires IsOrder(order) && Named(ItemsOf(from, kind)) && Named(ItemsOf(to, kind))
    requires Kept(ItemsOf(from, kind), ItemsOf(to, kind), id)
    ensures ShownOf(kind, from, to, order, id) == [] <==>
              !ItemShows(kind, Get(ItemsOf(from, kind), id).value, Get(ItemsOf(to, kind), id).value)
  {
    hide Named;
    hide ClassifyItem;
    hide GraphPatch;
    hide OpsOf;
    hide Get;
    if kind.NodeKind? {
      KeptNodeSilentIff(from, to, order, id);
      hide ItemShows;
    } else {
      KeptEdgeIsDescribed(from, to, order, id);
    }
  }

  lemma {:induction false} GroupsSilentIff(kind: Kind, a: seq<Json>, b: seq<Json>, patch: seq<Op>, keys: seq<string>)
    ensures ClassifyGroups(kind, a, b, patch, keys) == [] <==>
              forall id :: id in keys ==> ClassifyItem(kind, a, b, id, OpsOf(kind, patch, id)) == []
    decreases |keys|
  {
    hide ClassifyItem;
    hide OpsOf;
    if keys != [] {
      var n := |keys| - 1;
      GroupsSilentIff(kind, a, b, patch, keys[..n]);
      assert keys == keys[..n] + [keys[n]];
      assert keys[n] in keys;
      ConcatEmpty(ClassifyGroups(kind, a, b, patch, keys[..n]),
                  ClassifyItem(kind, a, b, keys[n], OpsOf(kind, patch, keys[n])));
    }
  }

  lemma NothingFromNoOps(kind: Kind, a: seq<Json>, b: seq<Json>, id: string)
    ensures ClassifyItem(kind, a, b, id, []) == []
  {
    hide Get;
  }

  /** Whoever is shown has a group. */
  lemma ShownIsGrouped(kind: Kind, a: seq<Json>, b: seq<Json>, patch: seq<Op>, id: string)
    requires ClassifyItem(kind, a, b, id, OpsOf(kind, patch, id)) != []
    ensures id in Groups(kind, patch)
  {
    var ops := OpsOf(kind, patch, id);
    if ops == [] {
      NothingFromNoOps(kind, a, b, id);
    } else {
      hide ClassifyItem;
      hide OpsOf;
      hide Groups;
      OpsOfMembers(kind, patch, id, ops[0]);
      GroupsMembers(kind, patch, id);
    }
  }

  lemma WholeItemShows(kind: Kind, from: Graph, to: Graph, order: KeyOrder, id: string)
    requires Named(ItemsOf(from, kind)) && Named(ItemsOf(to, kind))
    requires id in Keys(ItemsOf(from, kind)) <==> id !in Keys(ItemsOf(to, kind))
    ensures ShownOf(kind, from, to, order, id) != []
  {
    var a, b, patch := ItemsOf(from, kind), ItemsOf(to, kind), GraphPatch(from, to, order);
    if id in Keys(a) {
      NamedSegments(a, id);
    } else {
      NamedSegments(b, id);
    }
    assert id in AddedIds(a, b) || id in AddedIds(b, a);
    hide GraphPatch;
    hide Named;
    hide AddedIds;
    hide OpsOf;
    hide HasAdd;
    hide HasRemove;
    PatchIsExact(kind, from, to, order, id);
  }

  lemma NeitherItemShows(kind: Kind, from: Graph, to: Graph, order: KeyOrder, id: string)
    requires GoodKey(id) && id !in Keys(ItemsOf(from, kind)) && id !in Keys(ItemsOf(to, kind))
    ensures ShownOf(kind, from, to, order, id) == []
  {
    var a, b, patch := ItemsOf(from, kind), ItemsOf(to, kind), GraphPatch(from, to, order);
    KeysAreIds(a);
    KeysAreIds(b);
    assert id !in AddedIds(a, b) && id !in AddedIds(b, a);
    assert Get(a, id).None?;
    hide GraphPatch;
    hide AddedIds;
    hide OpsOf;
    hide HasAdd;
    hide HasRemove;
    hide Get;
    hide Keys;
    PatchIsExact(kind, from, to, order, id);
  }

  lemma KeptIffInBoth(a: seq<Json>, b: seq<Json>, id: string)
    ensures Kept(a, b, id) <==> id in Keys(a) && id in Keys(b)
  {
    KeysAreIds(a);
    KeysAreIds(b);
  }

  /** One kind of item is passed over in silence exactly when no id came or went and no shown field differs. */
  lemma KindSilentIff(kind: Kind, from: Graph, to: Graph, order: KeyOrder)
    requires IsOrder(order) && Named(ItemsOf(from, kind)) && Named(ItemsOf(to, kind))
    ensures var patch := GraphPatch(from, to, order);
            (ClassifyGroups(kind, ItemsOf(from, kind), ItemsOf(to, kind), patch, Groups(kind, patch)) == []
             <==> KindSilent(kind, ItemsOf(from, kind), ItemsOf(to, kind)))
  {
    var a, b, patch := ItemsOf(from, kind), ItemsOf(to, kind), GraphPatch(from, to, order);
    var keys := Groups(kind, patch);
    GroupsSilentIff(kind, a, b, patch, keys);
    GroupsAreSegments(kind, patch);
    hide ClassifyGroups;
    hide Groups;
    hide GraphPatch;
    hide OpsOf;
    hide ClassifyItem;
    hide Named;
    hide Get;
    hide Keys;
    hide ItemShows;
    hide GoodKey;
    hide IsOrder;
    forall id
      ensures ShownOf(kind, from, to, order, id) != [] ==> id in keys
      ensures Kept(a, b, id) <==> id in Keys(a) && id in Keys(b)
      ensures Kept(a, b, id) ==> (ShownOf(kind, from, to, order, id) == [] <==>
                                  !ItemShows(kind, Get(a, id).value, Get(b, id).value))
      ensures (id in Keys(a) <==> id !in Keys(b)) ==> ShownOf(kind, from, to, order, id) != []
      ensures id in keys && id !in Keys(a) && id !in Keys(b) ==> ShownOf(kind, from, to, order, id) == [] {
      ItemCases(kind, from, to, order, id);
    }
  }

  /** The four cases of an id. */
  lemma ItemCases(kind: Kind, from: Graph, to: Graph, order: KeyOrder, id: string)
    requires IsOrder(order) && Named(ItemsOf(from, kind)) && Named(ItemsOf(to, kind))
    ensures var a, b := ItemsOf(from, kind), ItemsOf(to, kind);
            var shown := ShownOf(kind, from, to, order, id);
            && (shown != [] ==> id in Groups(kind, GraphPatch(from, to, order)))
            && (Kept(a, b, id) <==> id in Keys(a) && id in Keys(b))
            && (Kept(a, b, id) ==> (shown == [] <==> !ItemShows(kind, Get(a, id).value, Get(b, id).value)))
            && ((id in Keys(a) <==> id !in Keys(b)) ==> shown != [])
            && (GoodKey(id) && id !in Keys(a) && id !in Keys(b) ==> shown == [])
  {
    var a, b := ItemsOf(from, kind), ItemsOf(to, kind);
    KeptIffInBoth(a, b, id);
    hide Keys;
    hide Get;
    hide Named;
    hide IsOrder;
    hide ItemShows;
    hide Kept;
    if ShownOf(kind, from, to, order, id) != [] {
      ShownIsGrouped(kind, a, b, GraphPatch(from, to, order), id);
    }
    hide ShownOf;
    hide GraphPatch;
    hide Groups;
    if Kept(a, b, id) {
      KeptSilentIff(kind, from, to, order, id);
    } else if id in Keys(a) <==> id !in Keys(b) {
      WholeItemShows(kind, from, to, order, id);
    } else if GoodKey(id) {
      NeitherItemShows(kind, from, to, order, id);
    }
  }

  /**
   * The semantic diff is empty, and with it the summary's total zero, if and only if no id came or went,
   * no kept node's name, type, position or configuration differs and no kept edge's ends or handles do.
   */
  lemma NothingShownIff(from: Graph, to: Graph, order: KeyOrder)
    requires IsOrder(order) && Named(from.nodes) && Named(to.nodes) && Named(from.edges) && Named(to.edges)
    ensures Classified(from, to, GraphPatch(from, to, order)) == [] <==>
              KindSilent(NodeKind, from.nodes, to.nodes) && KindSilent(EdgeKind, from.edges, to.edges)
  {
    KindSilentIff(NodeKind, from, to, order);
    KindSilentIff(EdgeKind, from, to, order);
    hide ClassifyGroups;
    hide Groups;
    hide GraphPatch;
    hide KindSilent;
  }

  // ── What is in the patch ─────────────────────────────────────────────────

  ghost predicate FieldDiffers(kind: Kind, u: Json, v: Json, field: string) {
    match kind
    case NodeKind => Differs(field, FieldIn(u, field), FieldIn(v, field))
    case EdgeKind => FieldChanged(u, v, field)
  }

  /** Some listed field differs, shown or not. */
  ghost predicate ItemDiffers(kind: Kind, u: Json, v: Json) {
    SomeFieldDiffers(kind, u, v, FieldList(kind))
  }

  lemma OneFieldEmptyIff(kind: Kind, path: string, field: string, u: Json, v: Json, order: KeyOrder)
    requires IsOrder(order)
    ensures OneField(kind, path, field, FieldIn(u, field), FieldIn(v, field), order) == [] <==>
              !FieldDiffers(kind, u, v, field)
  {
    if kind.NodeKind? {
      FieldEmptyIff(path, field, FieldIn(u, field), FieldIn(v, field), order);
      hide OneField;
      hide Differs;
    }
  }

  ghost predicate SomeFieldDiffers(kind: Kind, u: Json, v: Json, fields: seq<string>) {
    exists i :: 0 <= i < |fields| && FieldDiffers(kind, u, v, fields[i])
  }

  lemma SomeFieldSnoc(kind: Kind, u: Json, v: Json, fields: seq<string>, field: string)
    ensures SomeFieldDiffers(kind, u, v, fields + [field]) <==>
              SomeFieldDiffers(kind, u, v, fields) || FieldDiffers(kind, u, v, field)
  {
    hide FieldDiffers;
    var all := fields + [field];
    assert all[|fields|] == field;
    assert forall i :: 0 <= i < |fields| ==> all[i] == fields[i];
  }

  lemma {:induction false} FieldsEmptyIff(kind: Kind, base: string, u: Json, v: Json, fields: seq<string>,
                                          order: KeyOrder)
    requires IsOrder(order)
    ensures DiffFields(kind, base, u, v, fields, order) == [] <==> !SomeFieldDiffers(kind, u, v, fields)
    decreases |fields|
  {
    if fields != [] {
      var front, field := fields[..|fields| - 1], fields[|fields| - 1];
      assert fields == front + [field];
      hide *;
      FieldsEmptyIff(kind, base, u, v, front, order);
      OneFieldEmptyIff(kind, base + "/" + field, field, u, v, order);
      DiffFieldsSnoc(kind, base, u, v, front, field, order);
      SomeFieldSnoc(kind, u, v, front, field);
      ConcatEmpty(DiffFields(kind, base, u, v, front, order),
                  OneField(kind, base + "/" + field, field, FieldIn(u, field), FieldIn(v, field), order));
    }
  }

  lemma ItemEmptyIff(kind: Kind, id: string, u: Json, v: Json, order: KeyOrder)
    requires IsOrder(order)
    ensures ItemDiff(kind, id, u, v, order) == [] <==> !ItemDiffers(kind, u, v)
  {
    FieldsEmptyIff(kind, Prefix(kind) + id, u, v, FieldList(kind), order);
    hide DiffFields;
    hide SomeFieldDiffers;
  }

  lemma {:induction false} ChangedEmptyIff(kind: Kind, keys: seq<string>, a: seq<Json>, b: seq<Json>, order: KeyOrder)
    requires IsOrder(order)
    ensures ChangedOps(kind, keys, a, b, order) == [] <==>
              forall id :: id in keys && Kept(a, b, id) ==> !ItemDiffers(kind, Get(a, id).value, Get(b, id).value)
    decreases |keys|
  {
    hide Get;
    hide ItemDiffers;
    if keys != [] {
      var n := |keys| - 1;
      ChangedEmptyIff(kind, keys[..n], a, b, order);
      assert keys == keys[..n] + [keys[n]];
      hide ItemDiff;
      if Kept(a, b, keys[n]) {
        var now := ItemDiff(kind, keys[n], Get(a, keys[n]).value, Get(b, keys[n]).value, order);
        ItemEmptyIff(kind, keys[n], Get(a, keys[n]).value, Get(b, keys[n]).value, order);
        ConcatEmpty(ChangedOps(kind, keys[..n], a, b, order), now);
      }
      hide IsOrder;
    }
  }

  ghost predicate KindSame(kind: Kind, a: seq<Json>, b: seq<Json>) {
    SameIds(a, b) && forall id :: Kept(a, b, id) ==> !ItemDiffers(kind, Get(a, id).value, Get(b, id).value)
  }

  lemma {:induction false} RemovedEmptyIff(prefix: string, keys: seq<string>, b: seq<Json>)
    ensures RemovedOps(prefix, keys, b) == [] <==> forall id :: id in keys ==> Get(b, id).Some?
    decreases |keys|
  {
    hide Get;
    if keys != [] {
      var n := |keys| - 1;
      RemovedEmptyIff(prefix, keys[..n], b);
      assert keys == keys[..n] + [keys[n]];
      assert keys[n] in keys;
      ConcatEmpty(RemovedOps(prefix, keys[..n], b),
                  if Get(b, keys[n]).None? then [Op(prefix + keys[n], Remove)] else []);
    }
  }

  lemma {:induction false} AddedEmptyIff(prefix: string, keys: seq<string>, a: seq<Json>, b: seq<Json>)
    requires forall id :: id in keys ==> Get(b, id).Some?
    ensures AddedOps(prefix, keys, a, b) == [] <==> forall id :: id in keys ==> Get(a, id).Some?
    decreases |keys|
  {
    hide Get;
    if keys != [] {
      var n := |keys| - 1;
      assert keys == keys[..n] + [keys[n]];
      assert keys[n] in keys;
      AddedEmptyIff(prefix, keys[..n], a, b);
      var x := Op(prefix + keys[n], Add(Get(b, keys[n]).value));
      ConcatEmpty(AddedOps(prefix, keys[..n], a, b), if Get(a, keys[n]).None? then [x] else []);
    }
  }

  lemma KindEmptyIff(kind: Kind, a: seq<Json>, b: seq<Json>, order: KeyOrder)
    requires IsOrder(order)
    ensures KindPatch(kind, a, b, order) == [] <==> KindSame(kind, a, b)
  {
    KeysAreIds(a);
    KeysAreIds(b);
    hide Get;
    hide Keys;
    hide ItemDiffers;
    RemovedEmptyIff(Prefix(kind), Keys(a), b);
    AddedEmptyIff(Prefix(kind), Keys(b), a, b);
    ChangedEmptyIff(kind, Keys(b), a, b, order);
    hide RemovedOps;
    hide AddedOps;
    hide ChangedOps;
    hide IsOrder;
  }

  /** The patch is empty if and only if no id came or went and no listed field of a kept item differs. */
  lemma PatchEmptyIff(from: Graph, to: Graph, order: KeyOrder)
    requires IsOrder(order)
    ensures GraphPatch(from, to, order) == [] <==>
              KindSame(NodeKind, from.nodes, to.nodes) && KindSame(EdgeKind, from.edges, to.edges)
  {
    KindEmptyIff(NodeKind, from.nodes, to.nodes, order);
    KindEmptyIff(EdgeKind, from.edges, to.edges, order);
    hide KindPatch;
    hide KindSame;
    hide IsOrder;
  }

  /**
   * So a patch with operations can come with an empty semantic diff: as soon as nothing shown differs
   * but a kept node's handles, policies or nested workflow do, or a kept edge's type, label or condition.
   */
  lemma PatchIsSilentIff(from: Graph, to: Graph, order: KeyOrder)
    requires IsOrder(order) && Named(from.nodes) && Named(to.nodes) && Named(from.edges) && Named(to.edges)
    ensures GraphPatch(from, to, order) != [] && Classified(from, to, GraphPatch(from, to, order)) == [] <==>
              && KindSilent(NodeKind, from.nodes, to.nodes) && KindSilent(EdgeKind, from.edges, to.edges)
              && !(KindSame(NodeKind, from.nodes, to.nodes) && KindSame(EdgeKind, from.edges, to.edges))
  {
    NothingShownIff(from, to, order);
    PatchEmptyIff(from, to, order);
    hide *;
  }
}
