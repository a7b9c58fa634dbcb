/** What the semantic diff says of an item kept in both snapshots, against what differs in it. */
module CanvasMeaning {
  import opened Seqs
  import opened Json
  import opened GraphDiff
  import opened CanvasPatch
  import opened CanvasRoundTrip
  import opened CanvasClassify

  // ── A kept item's operations are its field differences ───────────────────

  lemma GroupOfDeep(prefix: string, k: string, path: string)
    requires prefix + k + "/" <= path && GoodKey(k)
    ensures GroupOf(prefix, path) == Some(k)
  {
    var longer := prefix + k + "/";
    var rest := path[|prefix|..];
    assert path[..|prefix|] == longer[..|prefix|] == prefix;
    assert rest[..|k| + 1] == longer[|prefix|..] == k + "/";
    assert forall j :: 0 <= j < |k| ==> rest[j] == k[j];
    assert rest[|k|] == '/';
    IndexOfIs(rest, '/', |k|);
    assert rest[..|k|] == k;
  }

  lemma ItemGroup(kind: Kind, k: string, u: Json, v: Json, order: KeyOrder, op: Op)
    requires GoodKey(k) && op in ItemDiff(kind, k, u, v, order)
    ensures GroupOf(Prefix(kind), op.path) == Some(k)
  {
    ItemUnder(kind, k, u, v, order);
    hide ItemDiff;
    hide Prefix;
    GroupOfDeep(Prefix(kind), k, op.path);
  }

  lemma {:induction false} ChangedOf(kind: Kind, keys: seq<string>, a: seq<Json>, b: seq<Json>, order: KeyOrder,
                                     id: string, op: Op)
    requires forall i :: 0 <= i < |keys| ==> GoodKey(keys[i])
    requires id in keys && Get(a, id).Some? && Get(b, id).Some? && GroupOf(Prefix(kind), op.path) == Some(id)
    ensures op in ChangedOps(kind, keys, a, b, order) <==>
              op in ItemDiff(kind, id, Get(a, id).value, Get(b, id).value, order)
    decreases |keys|
  {
    var front, k := keys[..|keys| - 1], keys[|keys| - 1];
    assert keys == front + [k];
    hide *;
    ChangedSnoc(kind, front, k, a, b, order, op);
    if id in front {
      ChangedOf(kind, front, a, b, order, id, op);
    } else {
      NotChanged(kind, front, a, b, order, id, op);
    }
    if ChangedAt(kind, k, a, b, order, op) {
      ChangedGroup(kind, k, a, b, order, op);
    }
    if k == id {
      ChangedAtKept(kind, id, a, b, order, op);
    }
  }

  ghost predicate ChangedAt(kind: Kind, k: string, a: seq<Json>, b: seq<Json>, order: KeyOrder, op: Op) {
    var u, v := Get(a, k), Get(b, k);
    u.Some? && v.Some? && op in ItemDiff(kind, k, u.value, v.value, order)
  }

  lemma ChangedAtKept(kind: Kind, k: string, a: seq<Json>, b: seq<Json>, order: KeyOrder, op: Op)
    requires Get(a, k).Some? && Get(b, k).Some?
    ensures ChangedAt(kind, k, a, b, order, op) <==>
              op in ItemDiff(kind, k, Get(a, k).value, Get(b, k).value, order)
  {
  }

  lemma ChangedGroup(kind: Kind, k: string, a: seq<Json>, b: seq<Json>, order: KeyOrder, op: Op)
    requires GoodKey(k) && ChangedAt(kind, k, a, b, order, op)
    ensures GroupOf(Prefix(kind), op.path) == Some(k)
  {
    ItemGroup(kind, k, Get(a, k).value, Get(b, k).value, order, op);
  }

  lemma ChangedSnoc(kind: Kind, front: seq<string>, k: string, a: seq<Json>, b: seq<Json>, order: KeyOrder, op: Op)
    ensures op in ChangedOps(kind, front + [k], a, b, order) <==>
              op in ChangedOps(kind, front, a, b, order) || ChangedAt(kind, k, a, b, order, op)
  {
    hide Get;
    hide ItemDiff;
    assert (front + [k])[..|front|] == front;
  }

  lemma {:induction false} NotChanged(kind: Kind, keys: seq<string>, a: seq<Json>, b: seq<Json>, order: KeyOrder,
                                      id: string, op: Op)
    requires forall i :: 0 <= i < |keys| ==> GoodKey(keys[i])
    requires id !in keys && GroupOf(Prefix(kind), op.path) == Some(id)
    ensures op !in ChangedOps(kind, keys, a, b, order)
    decreases |keys|
  {
    if keys != [] {
      var front, k := keys[..|keys| - 1], keys[|keys| - 1];
      assert keys == front + [k] && k in keys;
      hide GoodKey;
      hide GroupOf;
      hide Get;
      hide ItemDiff;
      hide ChangedAt;
      ChangedSnoc(kind, front, k, a, b, order, op);
      NotChanged(kind, front, a, b, order, id, op);
      if ChangedAt(kind, k, a, b, order, op) {
        ChangedGroup(kind, k, a, b, order, op);
      }
    }
  }

  lemma GroupNeedsPrefix(kind: Kind, other: Kind, path: string)
    requires kind != other && Prefix(other) <= path
    ensures GroupOf(Prefix(kind), path) == None
  {
    OtherPrefix(path);
  }

  lemma UnderMember(prefix: string, ops: seq<Op>, op: Op)
    requires Under(prefix, ops) && op in ops
    ensures prefix <= op.path
  {
  }

  /** The whole patch's operations on a kept id are those of its own comparison. */
  lemma KeptOps(kind: Kind, from: Graph, to: Graph, order: KeyOrder, id: string, op: Op)
    requires Named(ItemsOf(from, kind)) && Named(ItemsOf(to, kind))
    requires Get(ItemsOf(from, kind), id).Some? && Get(ItemsOf(to, kind), id).Some?
    ensures op in OpsOf(kind, GraphPatch(from, to, order), id) <==>
              op in ItemDiff(kind, id, Get(ItemsOf(from, kind), id).value, Get(ItemsOf(to, kind), id).value, order)
  {
    var a, b := ItemsOf(from, kind), ItemsOf(to, kind);
    OpsOfMembers(kind, GraphPatch(from, to, order), id, op);
    KeysAreIds(b);
    assert id in Keys(b);
    NamedSegments(b, id);
    hide ItemDiff;
    hide Get;
    hide OpsOf;
    hide GroupOf;
    hide GoodKey;
    if GroupOf(Prefix(kind), op.path) == Some(id) {
      KeptPart(kind, from, to, order, id, op);
      KeptKind(kind, a, b, order, id, op);
    } else if op in ItemDiff(kind, id, Get(a, id).value, Get(b, id).value, order) {
      ItemGroup(kind, id, Get(a, id).value, Get(b, id).value, order, op);
    }
  }

  lemma KeptPart(kind: Kind, from: Graph, to: Graph, order: KeyOrder, id: string, op: Op)
    requires GroupOf(Prefix(kind), op.path) == Some(id)
    ensures op in GraphPatch(from, to, order) <==> op in KindPatch(kind, ItemsOf(from, kind), ItemsOf(to, kind), order)
  {
    var n, e := KindPatch(NodeKind, from.nodes, to.nodes, order), KindPatch(EdgeKind, from.edges, to.edges, order);
    KindUnder(NodeKind, from.nodes, to.nodes, order);
    KindUnder(EdgeKind, from.edges, to.edges, order);
    hide KindPatch;
    hide GroupOf;
    assert op in n + e <==> op in n || op in e;
    hide Prefix;
    if kind == NodeKind && op in e {
      UnderMember(Prefix(EdgeKind), e, op);
      GroupNeedsPrefix(NodeKind, EdgeKind, op.path);
    } else if kind == EdgeKind && op in n {
      UnderMember(Prefix(NodeKind), n, op);
      GroupNeedsPrefix(EdgeKind, NodeKind, op.path);
    }
  }

  lemma KeptKind(kind: Kind, a: seq<Json>, b: seq<Json>, order: KeyOrder, id: string, op: Op)
    requires Named(a) && Named(b) && Get(a, id).Some? && Get(b, id).Some? && GroupOf(Prefix(kind), op.path) == Some(id)
    ensures op in KindPatch(kind, a, b, order) <==> op in ItemDiff(kind, id, Get(a, id).value, Get(b, id).value, order)
  {
    var prefix := Prefix(kind);
    KeysAreIds(a);
    KeysAreIds(b);
    assert id in Keys(b);
    forall i | 0 <= i < |Keys(a)| ensures GoodKey(Keys(a)[i]) {
      NamedSegments(a, Keys(a)[i]);
    }
    forall i | 0 <= i < |Keys(b)| ensures GoodKey(Keys(b)[i]) {
      NamedSegments(b, Keys(b)[i]);
    }
    hide Get;
    hide Keys;
    hide ItemDiff;
    hide GroupOf;
    hide GoodKey;
    hide Prefix;
    var r, d, c := RemovedOps(prefix, Keys(a), b), AddedOps(prefix, Keys(b), a, b),
        ChangedOps(kind, Keys(b), a, b, order);
    RemovedMembers(prefix, Keys(a), b, op);
    AddedMembers(prefix, Keys(b), a, b, op);
    ChangedOf(kind, Keys(b), a, b, order, id, op);
    hide RemovedOps;
    hide AddedOps;
    hide ChangedOps;
    assert op in KindPatch(kind, a, b, order) <==> op in r || op in d || op in c;
    forall k | GoodKey(k) && op.path == prefix + k ensures k == id {
      GroupOfItem(prefix, k);
    }
    assert forall k :: k in Keys(a) || k in Keys(b) ==> GoodKey(k);
  }

  // ── What a list of field operations is shown as ──────────────────────────

  ghost predicate Shows(changes: seq<Change>, what: ChangeType) {
    exists i :: 0 <= i < |changes| && changes[i].what == what
  }

  lemma ShowsSnoc(changes: seq<Change>, c: Change, what: ChangeType)
    ensures Shows(changes + [c], what) <==> Shows(changes, what) || c.what == what
  {
    var all := changes + [c];
    if Shows(changes, what) {
      var i :| 0 <= i < |changes| && changes[i].what == what;
      assert all[i].what == what;
    }
    assert all[|changes|] == c;
  }

  lemma {:induction false} ConfigShows(changes: seq<Change>, id: string, path: string, what: ChangeType)
    ensures Shows(AddConfigPath(changes, id, path), what) <==> Shows(changes, what) || what == NodeConfigChanged
    ensures CountOf(changes, NodeConfigChanged) <= 1 ==>
              CountOf(AddConfigPath(changes, id, path), NodeConfigChanged) <= 1
    decreases |changes|
  {
    if changes == [] {
      assert AddConfigPath(changes, id, path)[0].what == NodeConfigChanged;
      OneChange(Change(NodeConfigChanged, id, [path]), NodeConfigChanged);
    } else {
      ConfigShowsLast(changes, id, path, what);
    }
  }

  lemma {:induction false} NoConfig(changes: seq<Change>)
    ensures CountOf(changes, NodeConfigChanged) == 0 <==> !Shows(changes, NodeConfigChanged)
    decreases |changes|
  {
    if changes != [] {
      var n := |changes| - 1;
      NoConfig(changes[..n]);
      ShowsSnoc(changes[..n], changes[n], NodeConfigChanged);
      assert changes == changes[..n] + [changes[n]];
    }
  }

  lemma CountSnoc(changes: seq<Change>, c: Change, what: ChangeType)
    ensures CountOf(changes + [c], what) == CountOf(changes, what) + (if c.what == what then 1 else 0)
  {
    assert (changes + [c])[..|changes|] == changes;
  }

  lemma {:induction false} ConfigShowsLast(changes: seq<Change>, id: string, path: string, what: ChangeType)
    requires changes != []
    ensures Shows(AddConfigPath(changes, id, path), what) <==> Shows(changes, what) || what == NodeConfigChanged
    ensures CountOf(changes, NodeConfigChanged) <= 1 ==>
              CountOf(AddConfigPath(changes, id, path), NodeConfigChanged) <= 1
    decreases |changes|, 0
  {
    var front, last := changes[..|changes| - 1], changes[|changes| - 1];
    assert changes == front + [last];
    ShowsSnoc(front, last, what);
    ShowsSnoc(front, last, NodeConfigChanged);
    CountSnoc(front, last, NodeConfigChanged);
    NoConfig(front);
    var fresh0 := Change(NodeConfigChanged, id, [path]);
    assert (exists i :: 0 <= i < |changes| - 1 && changes[i].what == NodeConfigChanged) <==>
        Shows(front, NodeConfigChanged) by {
      assert forall i :: 0 <= i < |front| ==> front[i] == changes[i];
    }
    if Shows(front, NodeConfigChanged) {
      ConfigShows(front, id, path, what);
      var inner := AddConfigPath(front, id, path);
      assert AddConfigPath(changes, id, path) == inner + [last];
      hide AddConfigPath;
      hide CountOf;
      hide Shows;
      ShowsSnoc(inner, last, what);
      CountSnoc(inner, last, NodeConfigChanged);
    } else if last.what == NodeConfigChanged {
      var merged := last.(paths := last.paths + [path]);
      assert AddConfigPath(changes, id, path) == front + [merged];
      hide AddConfigPath;
      hide CountOf;
      hide Shows;
      ShowsSnoc(front, merged, what);
      CountSnoc(front, merged, NodeConfigChanged);
    } else {
      assert AddConfigPath(changes, id, path) == changes + [fresh0];
      hide AddConfigPath;
      hide CountOf;
      hide Shows;
      ShowsSnoc(changes, fresh0, what);
      CountSnoc(changes, fresh0, NodeConfigChanged);
    }
  }

  ghost predicate ShownBy(id: string, ops: seq<Op>, what: ChangeType) {
    exists i :: 0 <= i < |ops| && ShownAs(FieldOf("/nodes/" + id, ops[i].path)) == Some(what)
  }

  lemma ShownBySnoc(id: string, ops: seq<Op>, op: Op, what: ChangeType)
    ensures ShownBy(id, ops + [op], what) <==>
              ShownBy(id, ops, what) || ShownAs(FieldOf("/nodes/" + id, op.path)) == Some(what)
  {
    hide ShownAs;
    hide FieldOf;
    var all := ops + [op];
    if ShownBy(id, ops, what) {
      var i :| 0 <= i < |ops| && ShownAs(FieldOf("/nodes/" + id, ops[i].path)) == Some(what);
      assert all[i] == ops[i];
    }
    assert all[|ops|] == op;
  }

  lemma FieldChangeShows(changes: seq<Change>, id: string, op: Op, what: ChangeType)
    ensures var shown := ShownAs(FieldOf("/nodes/" + id, op.path));
            Shows(FieldChange(changes, id, op), what) <==> Shows(changes, what) || shown == Some(what)
    ensures CountOf(changes, NodeConfigChanged) <= 1 ==> CountOf(FieldChange(changes, id, op), NodeConfigChanged) <= 1
  {
    hide ShownAs;
    hide FieldOf;
    var shown := ShownAs(FieldOf("/nodes/" + id, op.path));
    if shown == Some(NodeConfigChanged) {
      ConfigShows(changes, id, op.path, what);
    } else if shown.Some? {
      ShowsSnoc(changes, Change(shown.value, id, [op.path]), what);
      CountSnoc(changes, Change(shown.value, id, [op.path]), NodeConfigChanged);
    }
  }

  ghost predicate Faithful(id: string, ops: seq<Op>, what: ChangeType) {
    && (Shows(FieldChanges(id, ops), what) <==> ShownBy(id, ops, what))
    && CountOf(FieldChanges(id, ops), NodeConfigChanged) <= 1
  }

  lemma FaithfulOneMore(id: string, ops: seq<Op>, op: Op, what: ChangeType)
    requires Faithful(id, ops, what)
    ensures Faithful(id, ops + [op], what)
  {
    assert (ops + [op])[..|ops|] == ops;
    assert FieldChanges(id, ops + [op]) == FieldChange(FieldChanges(id, ops), id, op);
    hide FieldChanges;
    hide FieldChange;
    hide Shows;
    hide ShownBy;
    hide CountOf;
    FieldChangeShows(FieldChanges(id, ops), id, op, what);
    ShownBySnoc(id, ops, op, what);
  }

  lemma {:induction false} FaithfulUpTo(id: string, ops: seq<Op>, n: nat, what: ChangeType)
    requires n <= |ops|
    ensures Faithful(id, ops[..n], what)
    decreases n
  {
    if n > 0 {
      hide *;
      FaithfulUpTo(id, ops, n - 1, what);
      FaithfulOneMore(id, ops[..n - 1], ops[n - 1], what);
      TakeStep(ops, n - 1);
    }
  }

  /** A type is shown exactly when some operation is of that type; config changes are merged into one. */
  lemma FieldChangesShow(id: string, ops: seq<Op>, what: ChangeType)
    ensures Shows(FieldChanges(id, ops), what) <==> ShownBy(id, ops, what)
    ensures CountOf(FieldChanges(id, ops), NodeConfigChanged) <= 1
  {
    FaithfulUpTo(id, ops, |ops|, what);
    assert ops[..|ops|] == ops;
    hide FieldChanges;
    hide Shows;
    hide ShownBy;
    hide CountOf;
  }

  // ── Which fields are behind it ───────────────────────────────────────────

  ghost predicate ConfigDiffers(from: Option<Json>, to: Option<Json>) {
    exists k :: OrNull(Lookup(FieldsOf(from), k)) != OrNull(Lookup(FieldsOf(to), k))
  }

  predicate PositionDiffers(from: Option<Json>, to: Option<Json>) {
    if Present(from) && Present(to) then
      || Lookup(FieldsOf(from), "x") != Lookup(FieldsOf(to), "x")
      || Lookup(FieldsOf(from), "y") != Lookup(FieldsOf(to), "y")
    else Present(from) != Present(to)
  }

  /** What counts as a difference in a node's field: absent and null are the same. */
  ghost predicate Differs(field: string, from: Option<Json>, to: Option<Json>) {
    if field == "position" then PositionDiffers(from, to)
    else if field == "config" then ConfigDiffers(from, to)
    else OrNull(from) != OrNull(to)
  }

  lemma {:induction false} KeysEmptyIff(path: string, f: map<string, Json>, g: map<string, Json>, keys: seq<string>)
    ensures DiffKeys(path, f, g, keys) == [] <==> forall k :: k in keys ==> OrNull(Lookup(f, k)) == OrNull(Lookup(g, k))
    decreases |keys|
  {
    if keys != [] {
      var n := |keys| - 1;
      KeysEmptyIff(path, f, g, keys[..n]);
      assert keys == keys[..n] + [keys[n]];
      hide OrNull;
    }
  }

  lemma ConfigEmptyIff(path: string, from: Option<Json>, to: Option<Json>, order: KeyOrder)
    requires IsOrder(order)
    ensures OneField(NodeKind, path, "config", from, to, order) == [] <==> !ConfigDiffers(from, to)
  {
    var f, g := FieldsOf(from), FieldsOf(to);
    var all := f.Keys + g.Keys;
    var keys := order([path], all);
    assert SetOf(keys) == all;
    assert forall k :: k in keys <==> k in SetOf(keys);
    KeysEmptyIff(path, f, g, keys);
    assert forall k :: k !in all ==> Lookup(f, k) == None && Lookup(g, k) == None;
  }

  lemma FieldEmptyIff(path: string, field: string, from: Option<Json>, to: Option<Json>, order: KeyOrder)
    requires IsOrder(order)
    ensures OneField(NodeKind, path, field, from, to, order) == [] <==> !Differs(field, from, to)
  {
    if field == "config" {
      ConfigEmptyIff(path, from, to, order);
    }
  }

  lemma FieldOfPath(base: string, rest: string)
    ensures FieldOf(base, base + "/" + rest) == rest
  {
    var path := base + "/" + rest;
    assert path[..|base| + 1] == base + "/" && path[|base| + 1..] == rest;
  }

  lemma PositionShown(rest: string)
    ensures ShownAs("position") == Some(NodeMoved) && ShownAs("position" + rest) == Some(NodeMoved)
  {
    var field := "position" + rest;
    assert field[..8] == "position";
    assert field[0] == 'p';
  }

  lemma ConfigShown(rest: string)
    ensures ShownAs("config") == Some(NodeConfigChanged) && ShownAs("config" + rest) == Some(NodeConfigChanged)
  {
    var field := "config" + rest;
    assert field[..6] == "config";
    assert field[0] == 'c';
  }

  lemma {:induction false} KeysBelow(path: string, f: map<string, Json>, g: map<string, Json>, keys: seq<string>,
                                     op: Op)
    requires op in DiffKeys(path, f, g, keys)
    ensures exists k :: op.path == path + "/" + k
    decreases |keys|
  {
    var n := |keys| - 1;
    if op in DiffKeys(path, f, g, keys[..n]) {
      KeysBelow(path, f, g, keys[..n], op);
    } else {
      assert op.path == path + "/" + keys[n];
    }
  }

  lemma ShownBelow(base: string, field: string, path: string, k: string)
    requires path == base + "/" + field + "/" + k && (field == "position" || field == "config")
    ensures ShownAs(FieldOf(base, path)) == ShownAs(field)
  {
    assert path == base + "/" + (field + ("/" + k));
    FieldOfPath(base, field + ("/" + k));
    if field == "position" {
      PositionShown("/" + k);
    } else {
      ConfigShown("/" + k);
    }
  }

  /** All operations of a field are shown alike. */
  lemma FieldShown(base: string, field: string, from: Option<Json>, to: Option<Json>, order: KeyOrder, op: Op)
    requires op in OneField(NodeKind, base + "/" + field, field, from, to, order)
    ensures ShownAs(FieldOf(base, op.path)) == ShownAs(field)
  {
    var path := base + "/" + field;
    FieldOfPath(base, field);
    hide ShownAs;
    hide FieldOf;
    if op.path != path {
      if field == "config" {
        KeysBelow(path, FieldsOf(from), FieldsOf(to), order([path], FieldsOf(from).Keys + FieldsOf(to).Keys), op);
        var k :| op.path == path + "/" + k;
        ShownBelow(base, field, op.path, k);
      } else {
        var axis := if op.path == path + "/" + "x" then "x" else "y";
        ShownBelow(base, field, op.path, axis);
      }
    }
  }

  lemma ShownByConcat(id: string, x: seq<Op>, y: seq<Op>, what: ChangeType)
    ensures ShownBy(id, x + y, what) <==> ShownBy(id, x, what) || ShownBy(id, y, what)
  {
    hide ShownAs;
    hide FieldOf;
    var all := x + y;
    assert forall i :: 0 <= i < |x| ==> all[i] == x[i];
    assert forall i :: 0 <= i < |y| ==> all[|x| + i] == y[i];
    if ShownBy(id, y, what) {
      var i :| 0 <= i < |y| && ShownAs(FieldOf("/nodes/" + id, y[i].path)) == Some(what);
      assert all[|x| + i] == y[i];
    }
  }

  lemma OneFieldShownBy(id: string, field: string, from: Option<Json>, to: Option<Json>, order: KeyOrder,
                        what: ChangeType)
    requires IsOrder(order)
    ensures ShownBy(id, OneField(NodeKind, "/nodes/" + id + "/" + field, field, from, to, order), what)
       <==> ShownAs(field) == Some(what) && Differs(field, from, to)
  {
    var ops := OneField(NodeKind, "/nodes/" + id + "/" + field, field, from, to, order);
    FieldEmptyIff("/nodes/" + id + "/" + field, field, from, to, order);
    hide Differs;
    hide ShownAs;
    hide FieldOf;
    forall i | 0 <= i < |ops| ensures ShownAs(FieldOf("/nodes/" + id, ops[i].path)) == ShownAs(field) {
      assert ops[i] in ops;
      FieldShown("/nodes/" + id, field, from, to, order, ops[i]);
    }
    hide OneField;
    assert ops != [] ==> ShownAs(FieldOf("/nodes/" + id, ops[0].path)) == ShownAs(field);
  }

  /** Some field of the list is shown as this type and differs. */
  ghost predicate SomeDiffers(fields: seq<string>, u: Json, v: Json, what: ChangeType) {
    exists i :: 0 <= i < |fields| && ShownAs(fields[i]) == Some(what)
             && Differs(fields[i], Lookup(FieldsOf(Some(u)), fields[i]), Lookup(FieldsOf(Some(v)), fields[i]))
  }

  lemma SomeDiffersSnoc(fields: seq<string>, field: string, u: Json, v: Json, what: ChangeType)
    ensures SomeDiffers(fields + [field], u, v, what) <==>
              SomeDiffers(fields, u, v, what)
              || (ShownAs(field) == Some(what)
                  && Differs(field, Lookup(FieldsOf(Some(u)), field), Lookup(FieldsOf(Some(v)), field)))
  {
    hide ShownAs;
    hide Differs;
    hide Lookup;
    hide FieldsOf;
    var all := fields + [field];
    assert forall i :: 0 <= i < |fields| ==> all[i] == fields[i];
    assert all[|fields|] == field;
  }

  lemma {:induction false} DiffShown(id: string, u: Json, v: Json, fields: seq<string>, n: nat, order: KeyOrder,
                                     what: ChangeType)
    requires IsOrder(order) && n <= |fields|
    ensures ShownBy(id, DiffFields(NodeKind, "/nodes/" + id, u, v, fields[..n], order), what)
       <==> SomeDiffers(fields[..n], u, v, what)
    decreases n
  {
    if n > 0 {
      var base, field := "/nodes/" + id, fields[n - 1];
      var f, g := Lookup(FieldsOf(Some(u)), field), Lookup(FieldsOf(Some(v)), field);
      TakeStep(fields, n - 1);
      var before := DiffFields(NodeKind, base, u, v, fields[..n - 1], order);
      var now := OneField(NodeKind, base + "/" + field, field, f, g, order);
      assert DiffFields(NodeKind, base, u, v, fields[..n], order) == before + now by {
        hide OneField;
      }
      hide *;
      DiffShown(id, u, v, fields, n - 1, order, what);
      OneFieldShownBy(id, field, f, g, order, what);
      ShownByConcat(id, before, now, what);
      SomeDiffersSnoc(fields[..n - 1], field, u, v, what);
    }
  }

  lemma ItemShown(id: string, u: Json, v: Json, order: KeyOrder, what: ChangeType)
    requires IsOrder(order)
    ensures ShownBy(id, ItemDiff(NodeKind, id, u, v, order), what) <==> SomeDiffers(NODE_FIELDS, u, v, what)
  {
    DiffShown(id, u, v, NODE_FIELDS, |NODE_FIELDS|, order, what);
    assert NODE_FIELDS[..|NODE_FIELDS|] == NODE_FIELDS;
    assert ItemDiff(NodeKind, id, u, v, order) == DiffFields(NodeKind, "/nodes/" + id, u, v, NODE_FIELDS, order);
  }

  lemma SameMembersShow(id: string, x: seq<Op>, y: seq<Op>, what: ChangeType)
    requires forall op :: op in x <==> op in y
    ensures ShownBy(id, x, what) <==> ShownBy(id, y, what)
  {
    hide ShownAs;
    hide FieldOf;
    if ShownBy(id, x, what) {
      var i :| 0 <= i < |x| && ShownAs(FieldOf("/nodes/" + id, x[i].path)) == Some(what);
      assert x[i] in y;
    }
    if ShownBy(id, y, what) {
      var i :| 0 <= i < |y| && ShownAs(FieldOf("/nodes/" + id, y[i].path)) == Some(what);
      assert y[i] in x;
    }
  }

  /** No name that is shown begins otherwise. */
  lemma NotShown(field: string)
    requires field != "" && field[0] !in {'n', 'l', 'p', 't', 'c'}
    ensures ShownAs(field) == None
  {
    assert "position"[0] == 'p' && "config"[0] == 'c';
  }

  lemma OtherNames()
    ensures ShownAs("compensation") == None && ShownAs("loop") == None && ShownAs("childWorkflow") == None
  {
    assert "compensation"[2] == 'm' && "config"[2] == 'n';
    assert "childWorkflow"[1] == 'h' && "config"[1] == 'o';
    assert "position"[0] == 'p' && "compensation"[0] == 'c' && "childWorkflow"[0] == 'c' && "loop"[0] == 'l';
  }

  lemma ShownTable()
    ensures ShownAs("name") == Some(NodeRenamed) && ShownAs("type") == Some(NodeTypeChanged)
    ensures ShownAs("nodeTypeId") == Some(NodeTypeChanged) && ShownAs("position") == Some(NodeMoved)
    ensures ShownAs("config") == Some(NodeConfigChanged)
    ensures forall i :: 5 <= i < |NODE_FIELDS| ==> ShownAs(NODE_FIELDS[i]) == None
  {
    NotShown("inputHandles");
    NotShown("outputHandles");
    NotShown("retryPolicy");
    NotShown("approvalGate");
    OtherNames();
  }

  function FieldIn(item: Json, field: string): Option<Json> {
    Lookup(FieldsOf(Some(item)), field)
  }

  lemma DiffFieldsSnoc(kind: Kind, base: string, u: Json, v: Json, fields: seq<string>, field: string, order: KeyOrder)
    ensures DiffFields(kind, base, u, v, fields + [field], order)
         == DiffFields(kind, base, u, v, fields, order)
            + OneField(kind, base + "/" + field, field, FieldIn(u, field), FieldIn(v, field), order)
  {
    hide OneField;
    assert (fields + [field])[..|fields|] == fields;
  }

  lemma DiffersByType(u: Json, v: Json)
    ensures SomeDiffers(NODE_FIELDS, u, v, NodeRenamed) <==> Differs("name", FieldIn(u, "name"), FieldIn(v, "name"))
    ensures SomeDiffers(NODE_FIELDS, u, v, NodeTypeChanged) <==>
              Differs("type", FieldIn(u, "type"), FieldIn(v, "type"))
              || Differs("nodeTypeId", FieldIn(u, "nodeTypeId"), FieldIn(v, "nodeTypeId"))
    ensures SomeDiffers(NODE_FIELDS, u, v, NodeMoved) <==>
              Differs("position", FieldIn(u, "position"), FieldIn(v, "position"))
    ensures SomeDiffers(NODE_FIELDS, u, v, NodeConfigChanged) <==>
              Differs("config", FieldIn(u, "config"), FieldIn(v, "config"))
  {
    ShownTable();
    hide ShownAs;
    hide Differs;
    hide Lookup;
    hide FieldsOf;
    assert NODE_FIELDS[0] == "name" && NODE_FIELDS[1] == "type" && NODE_FIELDS[2] == "nodeTypeId";
    assert NODE_FIELDS[3] == "position" && NODE_FIELDS[4] == "config";
  }

  /** The changes shown for a kept node. */
  function ShownFor(from: Graph, to: Graph, order: KeyOrder, id: string): seq<Change> {
    ClassifyItem(NodeKind, from.nodes, to.nodes, id, OpsOf(NodeKind, GraphPatch(from, to, order), id))
  }

  /** A kept id has no whole-item operation. */
  lemma KeptIsNeither(kind: Kind, from: Graph, to: Graph, order: KeyOrder, id: string)
    requires Named(ItemsOf(from, kind)) && Named(ItemsOf(to, kind))
    requires Get(ItemsOf(from, kind), id).Some? && Get(ItemsOf(to, kind), id).Some?
    ensures var ops := OpsOf(kind, GraphPatch(from, to, order), id);
            !HasAdd(ops, Prefix(kind) + id) && !HasRemove(ops, Prefix(kind) + id)
  {
    var a, b := ItemsOf(from, kind), ItemsOf(to, kind);
    KeysAreIds(a);
    KeysAreIds(b);
    assert id in Keys(b) && id !in AddedIds(a, b) && id !in AddedIds(b, a);
    NamedSegments(b, id);
    hide *;
    PatchIsExact(kind, from, to, order, id);
    NeitherMeans(kind, GraphPatch(from, to, order), id);
  }

  lemma NeitherMeans(kind: Kind, patch: seq<Op>, id: string)
    requires !Adds(kind, patch, id) && !Removes(kind, patch, id)
    ensures var ops := OpsOf(kind, patch, id);
            !HasAdd(ops, Prefix(kind) + id) && !HasRemove(ops, Prefix(kind) + id)
  {
  }

  lemma NodeForm(a: seq<Json>, b: seq<Json>, id: string, ops: seq<Op>)
    requires !HasAdd(ops, Prefix(NodeKind) + id) && !HasRemove(ops, Prefix(NodeKind) + id)
    requires Get(a, id).Some? && Get(b, id).Some?
    ensures ClassifyItem(NodeKind, a, b, id, ops) == FieldChanges(id, ops)
  {
    hide Get;
    hide HasAdd;
    hide HasRemove;
    hide FieldChanges;
  }

  lemma KeptNodeShows(from: Graph, to: Graph, order: KeyOrder, id: string, what: ChangeType)
    requires IsOrder(order) && Named(from.nodes) && Named(to.nodes)
    requires Get(from.nodes, id).Some? && Get(to.nodes, id).Some?
    ensures Shows(ShownFor(from, to, order, id), what) <==>
              SomeDiffers(NODE_FIELDS, Get(from.nodes, id).value, Get(to.nodes, id).value, what)
    ensures CountOf(ShownFor(from, to, order, id), NodeConfigChanged) <= 1
  {
    var u, v := Get(from.nodes, id).value, Get(to.nodes, id).value;
    var ops := OpsOf(NodeKind, GraphPatch(from, to, order), id);
    KeptIsNeither(NodeKind, from, to, order, id);
    NodeForm(from.nodes, to.nodes, id, ops);
    hide *;
    forall op: Op ensures op in ops <==> op in ItemDiff(NodeKind, id, u, v, order) {
      KeptOpsOfNode(from, to, order, id, op);
    }
    SameMembersShow(id, ops, ItemDiff(NodeKind, id, u, v, order), what);
    FieldChangesShow(id, ops, what);
    ItemShown(id, u, v, order, what);
  }

  lemma KeptOpsOfNode(from: Graph, to: Graph, order: KeyOrder, id: string, op: Op)
    requires Named(from.nodes) && Named(to.nodes) && Get(from.nodes, id).Some? && Get(to.nodes, id).Some?
    ensures op in OpsOf(NodeKind, GraphPatch(from, to, order), id) <==>
              op in ItemDiff(NodeKind, id, Get(from.nodes, id).value, Get(to.nodes, id).value, order)
  {
    KeptOps(NodeKind, from, to, order, id, op);
  }

  /**
   * The semantic diff of a kept node is the truth, type by type: renamed if and only if its name
   * differs, and likewise for type, position and configuration, the last in a single entry.
   */
  lemma KeptNodeIsDescribed(from: Graph, to: Graph, order: KeyOrder, id: string)
    requires IsOrder(order) && Named(from.nodes) && Named(to.nodes)
    requires Get(from.nodes, id).Some? && Get(to.nodes, id).Some?
    ensures var u, v, shown := Get(from.nodes, id).value, Get(to.nodes, id).value, ShownFor(from, to, order, id);
            && (Shows(shown, NodeRenamed) <==> OrNull(FieldIn(u, "name")) != OrNull(FieldIn(v, "name")))
            && (Shows(shown, NodeTypeChanged) <==>
                  || OrNull(FieldIn(u, "type")) != OrNull(FieldIn(v, "type"))
                  || OrNull(FieldIn(u, "nodeTypeId")) != OrNull(FieldIn(v, "nodeTypeId")))
            && (Shows(shown, NodeMoved) <==> PositionDiffers(FieldIn(u, "position"), FieldIn(v, "position")))
            && (Shows(shown, NodeConfigChanged) <==> ConfigDiffers(FieldIn(u, "config"), FieldIn(v, "config")))
            && CountOf(shown, NodeConfigChanged) <= 1
  {
    var u, v := Get(from.nodes, id).value, Get(to.nodes, id).value;
    DiffersByType(u, v);
    hide ShownFor;
    hide SomeDiffers;
    hide Get;
    hide Shows;
    hide CountOf;
    hide PositionDiffers;
    hide ConfigDiffers;
    hide OrNull;
    hide FieldIn;
    KeptNodeShows(from, to, order, id, NodeRenamed);
    KeptNodeShows(from, to, order, id, NodeTypeChanged);
    KeptNodeShows(from, to, order, id, NodeMoved);
    KeptNodeShows(from, to, order, id, NodeConfigChanged);
  }

  // ── Edges ────────────────────────────────────────────────────────────────

  predicate IsEnd(field: string) {
    field == "source" || field == "target" || field == "sourceHandle" || field == "targetHandle"
  }

  lemma LastSegment(base: string, f: string, g: string)
    requires SlashFree(f) && SlashFree(g)
    ensures EndsWith(base + "/" + f, "/" + g) <==> f == g
  {
    var path, tail := base + "/" + f, "/" + g;
    assert path[|path| - |f| - 1..] == "/" + f;
    assert forall i :: |path| - |f| <= i < |path| ==> path[i] == f[i - (|path| - |f|)];
    assert forall i :: 1 <= i < |tail| ==> tail[i] == g[i - 1];
    if EndsWith(path, tail) {
      var end := path[|path| - |tail|..];
      assert path[|path| - |tail|] == end[0] == '/';
      assert |tail| > |f|;
      assert end[|tail| - |f| - 1] == path[|path| - |f| - 1] == '/';
      assert |tail| == |f| + 1;
      assert f == end[1..] == g;
    }
  }

  lemma EndNames()
    ensures SlashFree("source") && SlashFree("target") && SlashFree("sourceHandle") && SlashFree("targetHandle")
  {
  }

  lemma RewiresIff(base: string, field: string, action: Action)
    requires SlashFree(field)
    ensures Rewires(Op(base + "/" + field, action)) <==> IsEnd(field)
  {
    EndNames();
    LastSegment(base, field, "source");
    LastSegment(base, field, "target");
    LastSegment(base, field, "sourceHandle");
    LastSegment(base, field, "targetHandle");
    hide EndsWith;
    hide SlashFree;
    assert "/" + "source" == "/source" && "/" + "target" == "/target";
    assert "/" + "sourceHandle" == "/sourceHandle" && "/" + "targetHandle" == "/targetHandle";
  }

  ghost predicate Rewired(ops: seq<Op>) {
    exists i :: 0 <= i < |ops| && Rewires(ops[i])
  }

  lemma RewiredConcat(x: seq<Op>, y: seq<Op>)
    ensures Rewired(x + y) <==> Rewired(x) || Rewired(y)
  {
    hide Rewires;
    var all := x + y;
    assert forall i :: 0 <= i < |x| ==> all[i] == x[i];
    assert forall i :: 0 <= i < |y| ==> all[|x| + i] == y[i];
    if Rewired(y) {
      var i :| 0 <= i < |y| && Rewires(y[i]);
      assert all[|x| + i] == y[i];
    }
  }

  ghost predicate SomeEndDiffers(fields: seq<string>, u: Json, v: Json) {
    exists i :: 0 <= i < |fields| && IsEnd(fields[i]) && OrNull(FieldIn(u, fields[i])) != OrNull(FieldIn(v, fields[i]))
  }

  lemma SomeEndSnoc(fields: seq<string>, field: string, u: Json, v: Json)
    ensures SomeEndDiffers(fields + [field], u, v) <==>
              SomeEndDiffers(fields, u, v) || (IsEnd(field) && OrNull(FieldIn(u, field)) != OrNull(FieldIn(v, field)))
  {
    hide IsEnd;
    hide OrNull;
    hide FieldIn;
    var all := fields + [field];
    assert forall i :: 0 <= i < |fields| ==> all[i] == fields[i];
    assert all[|fields|] == field;
  }

  lemma OneEnd(base: string, field: string, from: Option<Json>, to: Option<Json>, order: KeyOrder)
    requires SlashFree(field)
    ensures Rewired(OneField(EdgeKind, base + "/" + field, field, from, to, order)) <==>
              IsEnd(field) && OrNull(from) != OrNull(to)
  {
    var ops := OneField(EdgeKind, base + "/" + field, field, from, to, order);
    assert ops == [] <==> OrNull(from) == OrNull(to);
    assert forall i :: 0 <= i < |ops| ==> ops[i].path == base + "/" + field;
    hide OneField;
    hide OrNull;
    hide Rewires;
    hide IsEnd;
    if ops != [] {
      RewiresIff(base, field, ops[0].action);
      assert ops[0] == Op(base + "/" + field, ops[0].action);
    }
    forall i | 0 <= i < |ops| ensures Rewires(ops[i]) <==> IsEnd(field) {
      RewiresIff(base, field, ops[i].action);
      assert ops[i] == Op(base + "/" + field, ops[i].action);
    }
  }

  lemma {:induction false} DiffRewired(base: string, u: Json, v: Json, fields: seq<string>, n: nat, order: KeyOrder)
    requires n <= |fields| && forall i :: 0 <= i < |fields| ==> SlashFree(fields[i])
    ensures Rewired(DiffFields(EdgeKind, base, u, v, fields[..n], order)) <==> SomeEndDiffers(fields[..n], u, v)
    decreases n
  {
    if n > 0 {
      var field := fields[n - 1];
      var f, g := FieldIn(u, field), FieldIn(v, field);
      TakeStep(fields, n - 1);
      var before := DiffFields(EdgeKind, base, u, v, fields[..n - 1], order);
      var now := OneField(EdgeKind, base + "/" + field, field, f, g, order);
      assert DiffFields(EdgeKind, base, u, v, fields[..n], order) == before + now by {
        hide OneField;
      }
      hide *;
      DiffRewired(base, u, v, fields, n - 1, order);
      OneEnd(base, field, f, g, order);
      RewiredConcat(before, now);
      SomeEndSnoc(fields[..n - 1], field, u, v);
    }
  }

  lemma SameMembersRewire(x: seq<Op>, y: seq<Op>)
    requires forall op :: op in x <==> op in y
    ensures Rewired(x) <==> Rewired(y)
  {
    hide Rewires;
    if Rewired(x) {
      var i :| 0 <= i < |x| && Rewires(x[i]);
      assert x[i] in y;
    }
    if Rewired(y) {
      var i :| 0 <= i < |y| && Rewires(y[i]);
      assert y[i] in x;
    }
  }

  lemma EdgeFieldsSlashFree()
    ensures forall i :: 0 <= i < |EDGE_FIELDS| ==> SlashFree(EDGE_FIELDS[i])
  {
  }

  /** What the semantic diff says of a kept edge. */
  function EdgeShownFor(from: Graph, to: Graph, order: KeyOrder, id: string): seq<Change> {
    ClassifyItem(EdgeKind, from.edges, to.edges, id, OpsOf(EdgeKind, GraphPatch(from, to, order), id))
  }

  lemma EdgeEnds(u: Json, v: Json)
    ensures SomeEndDiffers(EDGE_FIELDS, u, v) <==>
              || OrNull(FieldIn(u, "source")) != OrNull(FieldIn(v, "source"))
              || OrNull(FieldIn(u, "target")) != OrNull(FieldIn(v, "target"))
              || OrNull(FieldIn(u, "sourceHandle")) != OrNull(FieldIn(v, "sourceHandle"))
              || OrNull(FieldIn(u, "targetHandle")) != OrNull(FieldIn(v, "targetHandle"))
  {
    hide OrNull;
    hide FieldIn;
    assert EDGE_FIELDS[0] == "source" && EDGE_FIELDS[1] == "target";
    assert EDGE_FIELDS[2] == "sourceHandle" && EDGE_FIELDS[3] == "targetHandle";
    assert EDGE_FIELDS[4][1] == 'y' && EDGE_FIELDS[5][0] == 'l' && EDGE_FIELDS[6][0] == 'c';
    assert "target"[1] == 'a' && "targetHandle"[1] == 'a' && "source"[0] == 's' && "sourceHandle"[0] == 's';
    assert "target"[0] == 't' && "targetHandle"[0] == 't';
    assert !IsEnd(EDGE_FIELDS[4]) && !IsEnd(EDGE_FIELDS[5]) && !IsEnd(EDGE_FIELDS[6]);
  }

  lemma EdgeForm(a: seq<Json>, b: seq<Json>, id: string, ops: seq<Op>)
    requires !HasAdd(ops, Prefix(EdgeKind) + id) && !HasRemove(ops, Prefix(EdgeKind) + id)
    requires Get(a, id).Some? && Get(b, id).Some?
    ensures ClassifyItem(EdgeKind, a, b, id, ops) == if Rewired(ops) then [Change(EdgeRewired, id, Paths(ops))] else []
  {
    hide Get;
    hide HasAdd;
    hide HasRemove;
    hide Rewires;
    hide Prefix;
    hide Paths;
  }

  lemma KeptEdgeForm(from: Graph, to: Graph, order: KeyOrder, id: string)
    requires Named(from.edges) && Named(to.edges) && Get(from.edges, id).Some? && Get(to.edges, id).Some?
    ensures var ops := OpsOf(EdgeKind, GraphPatch(from, to, order), id);
            EdgeShownFor(from, to, order, id) == if Rewired(ops) then [Change(EdgeRewired, id, Paths(ops))] else []
  {
    KeptIsNeither(EdgeKind, from, to, order, id);
    var ops := OpsOf(EdgeKind, GraphPatch(from, to, order), id);
    hide Rewired;
    hide ClassifyItem;
    hide Get;
    hide HasAdd;
    hide HasRemove;
    hide OpsOf;
    hide GraphPatch;
    EdgeForm(from.edges, to.edges, id, ops);
  }

  /** An edge kept in both snapshots is shown as rewired, once, exactly when an end or a handle differs. */
  lemma KeptEdgeIsDescribed(from: Graph, to: Graph, order: KeyOrder, id: string)
    requires Named(from.edges) && Named(to.edges) && Get(from.edges, id).Some? && Get(to.edges, id).Some?
    ensures var u, v, shown := Get(from.edges, id).value, Get(to.edges, id).value, EdgeShownFor(from, to, order, id);
            && |shown| <= 1 && (forall i :: 0 <= i < |shown| ==> shown[i].what == EdgeRewired)
            && (shown != [] <==>
                  || OrNull(FieldIn(u, "source")) != OrNull(FieldIn(v, "source"))
                  || OrNull(FieldIn(u, "target")) != OrNull(FieldIn(v, "target"))
                  || OrNull(FieldIn(u, "sourceHandle")) != OrNull(FieldIn(v, "sourceHandle"))
                  || OrNull(FieldIn(u, "targetHandle")) != OrNull(FieldIn(v, "targetHandle")))
  {
    hide *;
    KeptEdgeForm(from, to, order, id);
    KeptEdgeRewires(from, to, order, id);
    EdgeEnds(Get(from.edges, id).value, Get(to.edges, id).value);
  }

  lemma KeptEdgeRewires(from: Graph, to: Graph, order: KeyOrder, id: string)
    requires Named(from.edges) && Named(to.edges) && Get(from.edges, id).Some? && Get(to.edges, id).Some?
    ensures Rewired(OpsOf(EdgeKind, GraphPatch(from, to, order), id)) <==>
              SomeEndDiffers(EDGE_FIELDS, Get(from.edges, id).value, Get(to.edges, id).value)
  {
    var u, v := Get(from.edges, id).value, Get(to.edges, id).value;
    var ops, diff := OpsOf(EdgeKind, GraphPatch(from, to, order), id), ItemDiff(EdgeKind, id, u, v, order);
    hide *;
    EdgeDiffRewires(id, u, v, order);
    forall op: Op ensures op in ops <==> op in diff {
      KeptOpsOfEdge(from, to, order, id, op);
    }
    SameMembersRewire(ops, diff);
  }

  lemma EdgeDiffRewires(id: string, u: Json, v: Json, order: KeyOrder)
    ensures Rewired(ItemDiff(EdgeKind, id, u, v, order)) <==> SomeEndDiffers(EDGE_FIELDS, u, v)
  {
    EdgeFieldsSlashFree();
    DiffRewired(Prefix(EdgeKind) + id, u, v, EDGE_FIELDS, |EDGE_FIELDS|, order);
    assert EDGE_FIELDS[..|EDGE_FIELDS|] == EDGE_FIELDS;
    hide EDGE_FIELDS;
    hide Rewired;
    hide SomeEndDiffers;
    hide DiffFields;
  }

  lemma KeptOpsOfEdge(from: Graph, to: Graph, order: KeyOrder, id: string, op: Op)
    requires Named(from.edges) && Named(to.edges) && Get(from.edges, id).Some? && Get(to.edges, id).Some?
    ensures op in OpsOf(EdgeKind, GraphPatch(from, to, order), id) <==>
              op in ItemDiff(EdgeKind, id, Get(from.edges, id).value, Get(to.edges, id).value, order)
  {
    KeptOps(EdgeKind, from, to, order, id, op);
  }
}
