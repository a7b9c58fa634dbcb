/** When the editor's patch, applied, gives the target: exactly when it has no field to change. */
module CanvasRoundTrip {
  import opened Seqs
  import opened Json
  import opened GraphDiff
  import opened CanvasPatch

  predicate GoodId(id: string) {
    GoodKey(id) && forall i :: 0 <= i < |id| ==> !LineEnd(id[i])
  }

  /** Every item has a printable id. */
  ghost predicate Named(items: seq<Json>) {
    forall i :: 0 <= i < |items| ==> IdOf(items[i]).Some? && GoodId(IdOf(items[i]).value)
  }

  ghost predicate Objects(items: seq<Json>) {
    forall i :: 0 <= i < |items| ==> items[i].Obj?
  }

  // ── One list ─────────────────────────────────────────────────────────────

  function ApplyAllTo(prefix: string, items: seq<Json>, ops: seq<Op>): seq<Json>
    decreases |ops|
  {
    if ops == [] then items else ApplyTo(prefix, ApplyAllTo(prefix, items, ops[..|ops| - 1]), ops[|ops| - 1])
  }

  lemma {:induction false} ApplySplits(g: Graph, ops: seq<Op>)
    ensures ApplyPatchOps(g, ops) == Graph(ApplyAllTo("/nodes/", g.nodes, ops), ApplyAllTo("/edges/", g.edges, ops))
    decreases |ops|
  {
    hide ApplyTo;
    if ops != [] {
      ApplySplits(g, ops[..|ops| - 1]);
    }
  }

  lemma ApplyToSnoc(prefix: string, items: seq<Json>, ops: seq<Op>, op: Op)
    ensures ApplyAllTo(prefix, items, ops + [op]) == ApplyTo(prefix, ApplyAllTo(prefix, items, ops), op)
  {
    hide ApplyTo;
    assert (ops + [op])[..|ops|] == ops;
  }

  lemma {:induction false} ApplyToConcat(prefix: string, items: seq<Json>, a: seq<Op>, b: seq<Op>)
    ensures ApplyAllTo(prefix, items, a + b) == ApplyAllTo(prefix, ApplyAllTo(prefix, items, a), b)
    decreases |b|
  {
    hide ApplyTo;
    if b == [] {
      assert a + b == a;
    } else {
      assert (a + b)[..|a + b| - 1] == a + b[..|b| - 1];
      ApplyToConcat(prefix, items, a, b[..|b| - 1]);
    }
  }

  lemma MatchGood(prefix: string, id: string)
    requires GoodId(id)
    ensures MatchRest(prefix, prefix + id) == Some(id)
  {
    var path := prefix + id;
    assert path[..|prefix|] == prefix && path[|prefix|..] == id;
  }

  lemma SpreadObjects(items: seq<Json>)
    requires Objects(items)
    ensures SpreadAll(items) == items
  {
  }

  lemma WithoutSnoc(items: seq<Json>, last: Json, gone: string)
    ensures Without(items + [last], gone)
         == if IdOf(last) == Some(gone) then Without(items, gone) else Without(items, gone) + [last]
  {
    assert (items + [last])[..|items|] == items;
    assert Without(items, gone) + [] == Without(items, gone);
  }

  lemma WithoutGetOneMore(items: seq<Json>, last: Json, gone: string, id: string)
    requires Get(Without(items, gone), id) == if id == gone then None else Get(items, id)
    ensures Get(Without(items + [last], gone), id) == if id == gone then None else Get(items + [last], id)
  {
    hide Get;
    hide Without;
    hide IdOf;
    WithoutSnoc(items, last, gone);
    GetAppend(items, last, id);
    GetAppend(Without(items, gone), last, id);
  }

  lemma {:induction false} WithoutGetUpTo(items: seq<Json>, gone: string, id: string, n: nat)
    requires n <= |items|
    ensures Get(Without(items[..n], gone), id) == if id == gone then None else Get(items[..n], id)
    decreases n
  {
    if n > 0 {
      hide *;
      WithoutGetUpTo(items, gone, id, n - 1);
      WithoutGetOneMore(items[..n - 1], items[n - 1], gone, id);
      TakeStep(items, n - 1);
    }
  }

  lemma WithoutGet(items: seq<Json>, gone: string, id: string)
    ensures Get(Without(items, gone), id) == if id == gone then None else Get(items, id)
  {
    hide *;
    WithoutGetUpTo(items, gone, id, |items|);
    assert items[..|items|] == items;
  }

  lemma WithoutObjects(items: seq<Json>, gone: string)
    requires Objects(items)
    ensures Objects(Without(items, gone))
  {
    forall i | 0 <= i < |Without(items, gone)| ensures Without(items, gone)[i].Obj? {
      WithoutMembers(items, gone, Without(items, gone)[i]);
    }
  }

  lemma GetAppend(items: seq<Json>, v: Json, id: string)
    ensures Get(items + [v], id) == if IdOf(v) == Some(id) then Some(v) else Get(items, id)
  {
    assert (items + [v])[..|items|] == items;
  }

  // ── Removing and adding ──────────────────────────────────────────────────

  lemma RemoveOne(prefix: string, items: seq<Json>, gone: string, id: string)
    requires Objects(items) && GoodId(gone)
    ensures var r := ApplyTo(prefix, items, Op(prefix + gone, Remove));
            Objects(r) && Get(r, id) == if id == gone then None else Get(items, id)
  {
    MatchGood(prefix, gone);
    SpreadObjects(items);
    WithoutGet(items, gone, id);
    WithoutObjects(items, gone);
  }

  lemma AddOne(prefix: string, items: seq<Json>, v: Json, key: string, id: string)
    requires Objects(items) && GoodId(key) && IdOf(v) == Some(key)
    ensures var r := ApplyTo(prefix, items, Op(prefix + key, Add(v)));
            Objects(r) && Get(r, id) == if id == key then Some(v) else Get(items, id)
  {
    MatchGood(prefix, key);
    SpreadObjects(items);
    GetAppend(items, v, id);
  }

  lemma {:induction false} RemovedPhase(prefix: string, items: seq<Json>, keys: seq<string>, b: seq<Json>, id: string)
    requires Objects(items) && forall i :: 0 <= i < |keys| ==> GoodId(keys[i])
    ensures var r := ApplyAllTo(prefix, items, RemovedOps(prefix, keys, b));
            Objects(r) && Get(r, id) == if id in keys && Get(b, id).None? then None else Get(items, id)
    decreases |keys|
  {
    if keys != [] {
      hide ApplyTo;
      hide Get;
      var n := |keys| - 1;
      RemovedPhase(prefix, items, keys[..n], b, id);
      var before := RemovedOps(prefix, keys[..n], b);
      var r := ApplyAllTo(prefix, items, before);
      assert id in keys <==> id in keys[..n] || id == keys[n];
      if Get(b, keys[n]).None? {
        var op := Op(prefix + keys[n], Remove);
        assert RemovedOps(prefix, keys, b) == before + [op];
        ApplyToSnoc(prefix, items, before, op);
        RemoveOne(prefix, r, keys[n], id);
      } else {
        assert RemovedOps(prefix, keys, b) == before + [] == before;
      }
    }
  }

  lemma {:induction false} AddedPhase(prefix: string, items: seq<Json>, keys: seq<string>, a: seq<Json>, b: seq<Json>,
                                      id: string)
    requires Objects(items) && forall i :: 0 <= i < |keys| ==> GoodId(keys[i]) && Get(b, keys[i]).Some?
    ensures var r := ApplyAllTo(prefix, items, AddedOps(prefix, keys, a, b));
            Objects(r) && Get(r, id) == if id in keys && Get(a, id).None? then Get(b, id) else Get(items, id)
    decreases |keys|
  {
    if keys != [] {
      hide ApplyTo;
      hide Get;
      var n := |keys| - 1;
      AddedPhase(prefix, items, keys[..n], a, b, id);
      var before := AddedOps(prefix, keys[..n], a, b);
      var r := ApplyAllTo(prefix, items, before);
      assert id in keys <==> id in keys[..n] || id == keys[n];
      if Get(a, keys[n]).None? {
        var op := Op(prefix + keys[n], Add(Get(b, keys[n]).value));
        assert AddedOps(prefix, keys, a, b) == before + [op];
        ApplyToSnoc(prefix, items, before, op);
        AddOne(prefix, r, Get(b, keys[n]).value, keys[n], id);
      } else {
        assert AddedOps(prefix, keys, a, b) == before + [] == before;
      }
    }
  }

  // ── When no field differs ────────────────────────────────────────────────

  lemma {:induction false} SameKeys(path: string, f: map<string, Json>, keys: seq<string>)
    ensures DiffKeys(path, f, f, keys) == []
    decreases |keys|
  {
    if keys != [] {
      SameKeys(path, f, keys[..|keys| - 1]);
    }
  }

  lemma SameField(kind: Kind, path: string, field: string, v: Option<Json>, order: KeyOrder)
    ensures OneField(kind, path, field, v, v, order) == []
  {
    if kind.NodeKind? && field == "config" {
      SameKeys(path, FieldsOf(v), order([path], FieldsOf(v).Keys + FieldsOf(v).Keys));
    }
  }

  /** Only the listed fields are looked at: a change elsewhere leaves the patch empty. */
  lemma {:induction false} SameFields(kind: Kind, base: string, u: Json, v: Json, fields: seq<string>, order: KeyOrder)
    requires forall i :: 0 <= i < |fields| ==>
              Lookup(FieldsOf(Some(u)), fields[i]) == Lookup(FieldsOf(Some(v)), fields[i])
    ensures DiffFields(kind, base, u, v, fields, order) == []
    decreases |fields|
  {
    if fields != [] {
      hide OneField;
      var n := |fields| - 1;
      SameFields(kind, base, u, v, fields[..n], order);
      SameField(kind, base + "/" + fields[n], fields[n], Lookup(FieldsOf(Some(u)), fields[n]), order);
    }
  }

  ghost predicate SharedEqual(a: seq<Json>, b: seq<Json>) {
    forall id :: Get(a, id).Some? && Get(b, id).Some? ==> Get(a, id) == Get(b, id)
  }

  lemma {:induction false} NothingChanged(kind: Kind, keys: seq<string>, a: seq<Json>, b: seq<Json>, order: KeyOrder)
    requires SharedEqual(a, b)
    ensures ChangedOps(kind, keys, a, b, order) == []
    decreases |keys|
  {
    if keys != [] {
      hide DiffFields;
      hide Get;
      var n := |keys| - 1;
      NothingChanged(kind, keys[..n], a, b, order);
      var u, v := Get(a, keys[n]), Get(b, keys[n]);
      if u.Some? && v.Some? {
        SameFields(kind, Prefix(kind) + keys[n], u.value, v.value, FieldList(kind), order);
      }
    }
  }

  lemma {:induction false} NamedKeys(items: seq<Json>)
    requires Named(items)
    ensures forall i :: 0 <= i < |Keys(items)| ==> GoodId(Keys(items)[i])
  {
    hide GoodId;
    if items != [] {
      var n := |items| - 1;
      assert Named(items[..n]);
      NamedKeys(items[..n]);
    }
  }

  ghost predicate SameMap(r: seq<Json>, b: seq<Json>) {
    forall id :: Get(r, id) == Get(b, id)
  }

  lemma KindReaches(kind: Kind, a: seq<Json>, b: seq<Json>, order: KeyOrder)
    requires Named(a) && Named(b) && SharedEqual(a, b)
    ensures SameMap(ApplyAllTo(Prefix(kind), a, KindPatch(kind, a, b, order)), b)
  {
    var prefix := Prefix(kind);
    var removed, added := RemovedOps(prefix, Keys(a), b), AddedOps(prefix, Keys(b), a, b);
    NothingChanged(kind, Keys(b), a, b, order);
    assert KindPatch(kind, a, b, order) == removed + added;
    ApplyToConcat(prefix, a, removed, added);
    NamedKeys(a);
    NamedKeys(b);
    KeysAreIds(a);
    KeysAreIds(b);
    var r := ApplyAllTo(prefix, a, removed);
    forall id ensures Get(ApplyAllTo(prefix, r, added), id) == Get(b, id) {
      hide Get;
      hide Keys;
      hide ApplyAllTo;
      hide RemovedOps;
      hide AddedOps;
      assert forall i :: 0 <= i < |Keys(b)| ==> Keys(b)[i] in Keys(b);
      RemovedPhase(prefix, a, Keys(a), b, id);
      AddedPhase(prefix, r, Keys(b), a, b, id);
    }
  }

  // ── The other list's operations ──────────────────────────────────────────

  ghost predicate Under(prefix: string, ops: seq<Op>) {
    forall i :: 0 <= i < |ops| ==> prefix <= ops[i].path
  }

  lemma UnderConcat(prefix: string, a: seq<Op>, b: seq<Op>)
    ensures Under(prefix, a + b) <==> Under(prefix, a) && Under(prefix, b)
  {
    var c := a + b;
    assert forall i :: 0 <= i < |a| ==> c[i] == a[i];
    assert forall i :: 0 <= i < |b| ==> c[|a| + i] == b[i];
  }

  lemma PathExtends(prefix: string, path: string, key: string)
    requires prefix <= path
    ensures prefix <= path + "/" + key
  {
    var longer := path + "/" + key;
    assert longer[..|path|] == path;
  }

  lemma {:induction false} KeysUnder(prefix: string, path: string, f: map<string, Json>, g: map<string, Json>,
                                     keys: seq<string>)
    requires prefix <= path
    ensures Under(prefix, DiffKeys(path, f, g, keys))
    decreases |keys|
  {
    if keys != [] {
      var n := |keys| - 1;
      KeysUnder(prefix, path, f, g, keys[..n]);
      PathExtends(prefix, path, keys[n]);
      var one := DiffField(path + "/" + keys[n], Lookup(f, keys[n]), Lookup(g, keys[n]));
      assert Under(prefix, one);
      UnderConcat(prefix, DiffKeys(path, f, g, keys[..n]), one);
    }
  }

  lemma FieldUnder(prefix: string, kind: Kind, path: string, field: string, u: Option<Json>, v: Option<Json>,
                   order: KeyOrder)
    requires prefix <= path
    ensures Under(prefix, OneField(kind, path, field, u, v, order))
  {
    if kind.NodeKind? && field == "config" {
      KeysUnder(prefix, path, FieldsOf(u), FieldsOf(v), order([path], FieldsOf(u).Keys + FieldsOf(v).Keys));
    } else if kind.NodeKind? && field == "position" {
      PathExtends(prefix, path, "x");
      PathExtends(prefix, path, "y");
      hide FieldsOf;
      UnderConcat(prefix, DiffCoordinate(path, u, v, "x"), DiffCoordinate(path, u, v, "y"));
    }
  }

  /** Field operations write below the item's own path. */
  lemma {:induction false} FieldsUnder(kind: Kind, base: string, u: Json, v: Json, fields: seq<string>, order: KeyOrder)
    ensures Under(base + "/", DiffFields(kind, base, u, v, fields, order))
    decreases |fields|
  {
    if fields != [] {
      hide OneField;
      var n := |fields| - 1;
      FieldsUnder(kind, base, u, v, fields[..n], order);
      var f, g := Lookup(FieldsOf(Some(u)), fields[n]), Lookup(FieldsOf(Some(v)), fields[n]);
      FieldUnder(base + "/", kind, base + "/" + fields[n], fields[n], f, g, order);
      UnderConcat(base + "/", DiffFields(kind, base, u, v, fields[..n], order),
                  OneField(kind, base + "/" + fields[n], fields[n], f, g, order));
    }
  }

  lemma UnderShorter(prefix: string, longer: string, ops: seq<Op>)
    requires prefix <= longer && Under(longer, ops)
    ensures Under(prefix, ops)
  {
  }

  lemma ItemUnder(kind: Kind, id: string, u: Json, v: Json, order: KeyOrder)
    ensures Under(Prefix(kind) + id + "/", ItemDiff(kind, id, u, v, order))
    ensures Under(Prefix(kind), ItemDiff(kind, id, u, v, order))
  {
    var base := Prefix(kind) + id;
    FieldsUnder(kind, base, u, v, FieldList(kind), order);
    hide Prefix;
    hide DiffFields;
    assert (base + "/")[..|Prefix(kind)|] == Prefix(kind);
    UnderShorter(Prefix(kind), base + "/", ItemDiff(kind, id, u, v, order));
  }

  lemma {:induction false} ChangedUnder(kind: Kind, keys: seq<string>, a: seq<Json>, b: seq<Json>, order: KeyOrder)
    ensures Under(Prefix(kind), ChangedOps(kind, keys, a, b, order))
    decreases |keys|
  {
    if keys != [] {
      hide ItemDiff;
      hide Prefix;
      var n := |keys| - 1;
      ChangedUnder(kind, keys[..n], a, b, order);
      var u, v := Get(a, keys[n]), Get(b, keys[n]);
      if u.Some? && v.Some? {
        ItemUnder(kind, keys[n], u.value, v.value, order);
        UnderConcat(Prefix(kind), ChangedOps(kind, keys[..n], a, b, order),
                    ItemDiff(kind, keys[n], u.value, v.value, order));
      }
    }
  }

  lemma {:induction false} RemovedUnder(prefix: string, keys: seq<string>, b: seq<Json>)
    ensures Under(prefix, RemovedOps(prefix, keys, b))
    decreases |keys|
  {
    if keys != [] {
      RemovedUnder(prefix, keys[..|keys| - 1], b);
    }
  }

  lemma {:induction false} AddedUnder(prefix: string, keys: seq<string>, a: seq<Json>, b: seq<Json>)
    ensures Under(prefix, AddedOps(prefix, keys, a, b))
    decreases |keys|
  {
    if keys != [] {
      AddedUnder(prefix, keys[..|keys| - 1], a, b);
    }
  }

  lemma KindUnder(kind: Kind, a: seq<Json>, b: seq<Json>, order: KeyOrder)
    ensures Under(Prefix(kind), KindPatch(kind, a, b, order))
  {
    hide RemovedOps;
    hide AddedOps;
    hide ChangedOps;
    hide Prefix;
    RemovedUnder(Prefix(kind), Keys(a), b);
    AddedUnder(Prefix(kind), Keys(b), a, b);
    ChangedUnder(kind, Keys(b), a, b, order);
    var r, d, c := RemovedOps(Prefix(kind), Keys(a), b), AddedOps(Prefix(kind), Keys(b), a, b),
        ChangedOps(kind, Keys(b), a, b, order);
    UnderConcat(Prefix(kind), r, d);
    UnderConcat(Prefix(kind), r + d, c);
  }

  lemma OtherPrefix(path: string)
    ensures !("/nodes/" <= path && "/edges/" <= path)
  {
    assert "/nodes/" <= path ==> path[1] == 'n';
    assert "/edges/" <= path ==> path[1] == 'e';
  }

  lemma {:induction false} ForeignOps(kind: Kind, other: Kind, items: seq<Json>, ops: seq<Op>)
    requires kind != other && Under(Prefix(other), ops)
    ensures ApplyAllTo(Prefix(kind), items, ops) == items
    decreases |ops|
  {
    if ops != [] {
      var n := |ops| - 1;
      ForeignOps(kind, other, items, ops[..n]);
      OtherPrefix(ops[n].path);
      assert MatchRest(Prefix(kind), ops[n].path) == None;
    }
  }

  /** Each list sees only its own part of the patch. */
  lemma PatchSplits(from: Graph, to: Graph, order: KeyOrder)
    ensures ApplyPatchOps(from, GraphPatch(from, to, order))
         == Graph(ApplyAllTo("/nodes/", from.nodes, KindPatch(NodeKind, from.nodes, to.nodes, order)),
                  ApplyAllTo("/edges/", from.edges, KindPatch(EdgeKind, from.edges, to.edges, order)))
  {
    var n, e := KindPatch(NodeKind, from.nodes, to.nodes, order), KindPatch(EdgeKind, from.edges, to.edges, order);
    ApplySplits(from, n + e);
    KindUnder(NodeKind, from.nodes, to.nodes, order);
    KindUnder(EdgeKind, from.edges, to.edges, order);
    hide KindPatch;
    hide ApplyAllTo;
    ApplyToConcat("/nodes/", from.nodes, n, e);
    ApplyToConcat("/edges/", from.edges, n, e);
    ForeignOps(NodeKind, EdgeKind, ApplyAllTo("/nodes/", from.nodes, n), e);
    ForeignOps(EdgeKind, NodeKind, from.edges, n);
  }

  // ── When a field differs ─────────────────────────────────────────────────

  lemma SpreadWithId(y: Json)
    ensures IdOf(Spread(y)).Some? ==> Spread(y) == y
  {
    NoIdIndex();
    assert y.Arr? ==> "id" !in OwnKeys(y);
    assert y.Str? ==> "id" !in OwnKeys(Letters(y.s));
  }

  lemma NoIdIndex()
    ensures forall i: nat :: IndexKey(i) != "id"
  {
    forall i: nat ensures IndexKey(i) != "id" {
      assert '0' <= IndexKey(i)[0] <= '9';
    }
  }

  lemma {:induction false} WithoutMembers(items: seq<Json>, id: string, x: Json)
    requires x in Without(items, id)
    ensures x in items
  {
    if items != [] {
      var n := |items| - 1;
      if x in Without(items[..n], id) {
        WithoutMembers(items[..n], id, x);
      }
    }
  }

  lemma OneOpItems(prefix: string, items: seq<Json>, op: Op, x: Json)
    requires x in ApplyTo(prefix, items, op) && IdOf(x).Some?
    ensures x in items || op.action == Add(x)
  {
    var all := SpreadAll(items);
    if MatchRest(prefix, op.path).Some? && op.action.Remove? {
      WithoutMembers(all, MatchRest(prefix, op.path).value, x);
    }
    if x in all {
      var i :| 0 <= i < |all| && all[i] == x;
      SpreadWithId(items[i]);
    }
  }

  /** Whatever ends up in the list was there before or is some add's value. */
  lemma {:induction false} ResultItems(prefix: string, items: seq<Json>, ops: seq<Op>, x: Json)
    requires x in ApplyAllTo(prefix, items, ops) && IdOf(x).Some?
    ensures x in items || exists i :: 0 <= i < |ops| && ops[i].action == Add(x)
    decreases |ops|
  {
    if ops != [] {
      hide ApplyTo;
      var n := |ops| - 1;
      OneOpItems(prefix, ApplyAllTo(prefix, items, ops[..n]), ops[n], x);
      if ops[n].action != Add(x) {
        ResultItems(prefix, items, ops[..n], x);
      }
    }
  }

  /** Every value added by these operations lies strictly inside v. */
  ghost predicate AddsInside(ops: seq<Op>, v: Json) {
    forall i :: 0 <= i < |ops| && ops[i].action.Add? ==> ops[i].action.value < v
  }

  lemma InsideConcat(a: seq<Op>, b: seq<Op>, v: Json)
    requires AddsInside(a, v) && AddsInside(b, v)
    ensures AddsInside(a + b, v)
  {
  }

  lemma {:induction false} KeysInside(path: string, f: map<string, Json>, c: Json, keys: seq<string>)
    requires c.Obj?
    ensures AddsInside(DiffKeys(path, f, c.fields, keys), c)
    decreases |keys|
  {
    if keys != [] {
      var n := |keys| - 1;
      KeysInside(path, f, c, keys[..n]);
      var one := DiffField(path + "/" + keys[n], Lookup(f, keys[n]), Lookup(c.fields, keys[n]));
      assert AddsInside(one, c);
      InsideConcat(DiffKeys(path, f, c.fields, keys[..n]), one, c);
    }
  }

  lemma {:induction false} NoKeysAdded(path: string, f: map<string, Json>, keys: seq<string>, v: Json)
    ensures AddsInside(DiffKeys(path, f, map[], keys), v)
    decreases |keys|
  {
    if keys != [] {
      NoKeysAdded(path, f, keys[..|keys| - 1], v);
    }
  }

  lemma FieldInside(kind: Kind, path: string, field: string, u: Option<Json>, v: Json, order: KeyOrder)
    requires v.Obj?
    ensures AddsInside(OneField(kind, path, field, u, Lookup(v.fields, field), order), v)
  {
    var t := Lookup(v.fields, field);
    if kind.NodeKind? && field == "config" {
      var keys := order([path], FieldsOf(u).Keys + FieldsOf(t).Keys);
      if t.Some? && t.value.Obj? {
        KeysInside(path, FieldsOf(u), t.value, keys);
      } else {
        NoKeysAdded(path, FieldsOf(u), keys, v);
      }
    }
  }

  lemma {:induction false} FieldsInside(kind: Kind, base: string, u: Json, v: Json, fields: seq<string>,
                                        order: KeyOrder)
    requires v.Obj?
    ensures AddsInside(DiffFields(kind, base, u, v, fields, order), v)
    decreases |fields|
  {
    if fields != [] {
      hide OneField;
      var n := |fields| - 1;
      FieldsInside(kind, base, u, v, fields[..n], order);
      var f := Lookup(FieldsOf(Some(u)), fields[n]);
      FieldInside(kind, base + "/" + fields[n], fields[n], f, v, order);
      InsideConcat(DiffFields(kind, base, u, v, fields[..n], order),
                   OneField(kind, base + "/" + fields[n], fields[n], f, Lookup(v.fields, fields[n]), order), v);
    }
  }

  /** The shared id whose items differ and whose target contains the added value. */
  ghost predicate Contains(a: seq<Json>, b: seq<Json>, k: string, x: Json) {
    Get(a, k).Some? && Get(b, k).Some? && Get(a, k) != Get(b, k) && x < Get(b, k).value
  }

  lemma {:induction false} ChangedAdds(kind: Kind, keys: seq<string>, a: seq<Json>, b: seq<Json>, order: KeyOrder,
                                       i: nat)
    returns (k: string)
    requires i < |ChangedOps(kind, keys, a, b, order)| && ChangedOps(kind, keys, a, b, order)[i].action.Add?
    ensures Contains(a, b, k, ChangedOps(kind, keys, a, b, order)[i].action.value)
    decreases |keys|
  {
    var n := |keys| - 1;
    var u, v := Get(a, keys[n]), Get(b, keys[n]);
    var before := ChangedOps(kind, keys[..n], a, b, order);
    if i < |before| {
      k := ChangedAdds(kind, keys[..n], a, b, order, i);
    } else {
      k := keys[n];
      ItemAdds(kind, k, u.value, v.value, order, i - |before|);
      hide ItemDiff;
    }
  }

  lemma ItemAdds(kind: Kind, id: string, u: Json, v: Json, order: KeyOrder, i: nat)
    requires i < |ItemDiff(kind, id, u, v, order)| && ItemDiff(kind, id, u, v, order)[i].action.Add? && v.Obj?
    ensures u != v && ItemDiff(kind, id, u, v, order)[i].action.value < v
  {
    hide DiffFields;
    FieldsInside(kind, Prefix(kind) + id, u, v, FieldList(kind), order);
    if u == v {
      SameFields(kind, Prefix(kind) + id, u, v, FieldList(kind), order);
    }
  }

  lemma {:induction false} AddedAdds(prefix: string, keys: seq<string>, a: seq<Json>, b: seq<Json>, i: nat)
    requires i < |AddedOps(prefix, keys, a, b)| && AddedOps(prefix, keys, a, b)[i].action.Add?
    ensures exists k :: Get(a, k).None? && Get(b, k) == Some(AddedOps(prefix, keys, a, b)[i].action.value)
    decreases |keys|
  {
    var n := |keys| - 1;
    var before := AddedOps(prefix, keys[..n], a, b);
    if i < |before| {
      AddedAdds(prefix, keys[..n], a, b, i);
    } else {
      assert Get(a, keys[n]).None? && Get(b, keys[n]) == Some(AddedOps(prefix, keys, a, b)[i].action.value);
    }
  }

  lemma {:induction false} RemovedAdds(prefix: string, keys: seq<string>, b: seq<Json>)
    ensures forall i :: 0 <= i < |RemovedOps(prefix, keys, b)| ==> RemovedOps(prefix, keys, b)[i].action.Remove?
    decreases |keys|
  {
    if keys != [] {
      RemovedAdds(prefix, keys[..|keys| - 1], b);
    }
  }

  /** An added value is a wholly new item, or sits inside the target of a changed one. */
  lemma PatchAdds(kind: Kind, a: seq<Json>, b: seq<Json>, order: KeyOrder, x: Json, i: nat) returns (k: string)
    requires i < |KindPatch(kind, a, b, order)| && KindPatch(kind, a, b, order)[i].action == Add(x)
    ensures (Get(a, k).None? && Get(b, k) == Some(x)) || Contains(a, b, k, x)
  {
    var r, d, c := RemovedOps(Prefix(kind), Keys(a), b), AddedOps(Prefix(kind), Keys(b), a, b),
        ChangedOps(kind, Keys(b), a, b, order);
    assert forall j :: 0 <= j < |r| ==> (r + d + c)[j] == r[j];
    RemovedAdds(Prefix(kind), Keys(a), b);
    hide RemovedOps;
    hide AddedOps;
    hide ChangedOps;
    hide Get;
    assert i >= |r|;
    if i < |r| + |d| {
      assert (r + d + c)[i] == d[i - |r|];
      AddedAdds(Prefix(kind), Keys(b), a, b, i - |r|);
      k :| Get(a, k).None? && Get(b, k) == Some(x);
    } else {
      assert c[i - |r| - |d|].action == Add(x);
      k := ChangedAdds(kind, Keys(b), a, b, order, i - |r| - |d|);
    }
  }

  ghost predicate UniqueIds(items: seq<Json>) {
    forall x :: x in items && IdOf(x).Some? ==> Get(items, IdOf(x).value) == Some(x)
  }

  /** Targets of shared ids whose items differ. */
  ghost function Differing(a: seq<Json>, b: seq<Json>): set<string> {
    set id | id in Keys(b) && Get(a, id).Some? && Get(a, id) != Get(b, id)
  }

  /** Among finitely many values there is one inside no other. */
  lemma {:induction false} Outermost(ids: set<string>, b: seq<Json>) returns (c: string)
    requires ids != {} && forall id :: id in ids ==> Get(b, id).Some?
    ensures c in ids && forall id :: id in ids ==> !(Get(b, c).value < Get(b, id).value)
    decreases |ids|
  {
    c :| c in ids;
    var rest := ids - {c};
    if rest != {} {
      var d := Outermost(rest, b);
      hide Get;
      if Get(b, c).value < Get(b, d).value {
        c := d;
      }
    }
  }

  lemma KindMisses(kind: Kind, a: seq<Json>, b: seq<Json>, order: KeyOrder)
    requires UniqueIds(a) && !SharedEqual(a, b)
    ensures !SameMap(ApplyAllTo(Prefix(kind), a, KindPatch(kind, a, b, order)), b)
  {
    var r := ApplyAllTo(Prefix(kind), a, KindPatch(kind, a, b, order));
    KeysAreIds(b);
    var ids := Differing(a, b);
    var bad :| Get(a, bad).Some? && Get(b, bad).Some? && Get(a, bad) != Get(b, bad);
    assert bad in ids;
    var c := Outermost(ids, b);
    var x := Get(b, c).value;
    hide ApplyAllTo;
    hide KindPatch;
    if Get(r, c) == Some(x) {
      assert x in r && IdOf(x) == Some(c);
      NotAdded(kind, a, b, order, c);
    }
    hide Get;
    assert Get(r, c) != Get(b, c);
  }

  lemma NotNew(a: seq<Json>, b: seq<Json>, c: string, k: string)
    requires Get(a, c).Some? && Get(b, c).Some?
    ensures !(Get(a, k).None? && Get(b, k) == Get(b, c))
  {
  }

  lemma NotInside(a: seq<Json>, b: seq<Json>, c: string, k: string)
    requires Get(b, c).Some?
    requires forall id :: id in Differing(a, b) ==> Get(b, id).Some? && !(Get(b, c).value < Get(b, id).value)
    ensures !Contains(a, b, k, Get(b, c).value)
  {
    KeysAreIds(b);
    hide Get;
    hide Keys;
    assert Get(b, k).Some? && Get(a, k).Some? && Get(a, k) != Get(b, k) ==> k in Differing(a, b);
  }

  lemma NotAdded(kind: Kind, a: seq<Json>, b: seq<Json>, order: KeyOrder, c: string)
    requires UniqueIds(a) && c in Differing(a, b) && Get(b, c).Some?
    requires forall id :: id in Differing(a, b) ==> Get(b, id).Some? && !(Get(b, c).value < Get(b, id).value)
    ensures Get(b, c).value !in ApplyAllTo(Prefix(kind), a, KindPatch(kind, a, b, order))
  {
    var x := Get(b, c).value;
    var ops := KindPatch(kind, a, b, order);
    assert IdOf(x) == Some(c) && x !in a && Get(a, c).Some?;
    hide *;
    forall i | 0 <= i < |ops| ensures ops[i].action != Add(x) {
      if ops[i].action == Add(x) {
        var k := PatchAdds(kind, a, b, order, x, i);
        NotInside(a, b, c, k);
        NotNew(a, b, c, k);
      }
    }
    if x in ApplyAllTo(Prefix(kind), a, ops) {
      ResultItems(Prefix(kind), a, ops, x);
    }
  }

  /**
   * Applying the computed patch gives the target's node and edge maps if and only if every shared
   * id already carries the same item: field operations are emitted but change nothing.
   */
  lemma PatchRoundTripIff(from: Graph, to: Graph, order: KeyOrder)
    requires Named(from.nodes) && Named(to.nodes) && Named(from.edges) && Named(to.edges)
    requires UniqueIds(from.nodes) && UniqueIds(from.edges)
    ensures var r := ApplyPatchOps(from, GraphPatch(from, to, order));
            SameMap(r.nodes, to.nodes) && SameMap(r.edges, to.edges)
            <==> SharedEqual(from.nodes, to.nodes) && SharedEqual(from.edges, to.edges)
  {
    PatchSplits(from, to, order);
    hide *;
    if SharedEqual(from.nodes, to.nodes) {
      KindReaches(NodeKind, from.nodes, to.nodes, order);
    } else {
      KindMisses(NodeKind, from.nodes, to.nodes, order);
    }
    if SharedEqual(from.edges, to.edges) {
      KindReaches(EdgeKind, from.edges, to.edges, order);
    } else {
      KindMisses(EdgeKind, from.edges, to.edges, order);
    }
    PrefixIs();
  }

  lemma PrefixIs()
    ensures Prefix(NodeKind) == "/nodes/" && Prefix(EdgeKind) == "/edges/"
  {
  }
}
