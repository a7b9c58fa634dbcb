/** What the operations on an item kept in both snapshots carry, place by place. */
module CanvasFields {
  import opened Seqs
  import opened Json
  import opened GraphDiff
  import opened CanvasPatch
  import opened CanvasRoundTrip
  import opened CanvasClassify
  import opened CanvasMeaning

  /** A place in an item that an operation can name. */
  datatype Place = Field(field: string) | Axis(axis: string) | Setting(key: string)

  function PathOf(base: string, p: Place): string {
    match p
    case Field(f) => base + "/" + f
    case Axis(axis) => base + "/position/" + axis
    case Setting(k) => base + "/config/" + k
  }

  function ValueOf(item: Json, p: Place): Option<Json> {
    match p
    case Field(f) => FieldIn(item, f)
    case Axis(axis) => Lookup(FieldsOf(FieldIn(item, "position")), axis)
    case Setting(k) => Lookup(FieldsOf(FieldIn(item, "config")), k)
  }

  /** The position is compared by axis when both items have one, the configuration always by key. */
  ghost predicate Compared(kind: Kind, u: Json, v: Json, p: Place) {
    var placed := Present(FieldIn(u, "position")) && Present(FieldIn(v, "position"));
    match p
    case Field(f) => f in FieldList(kind) && (kind.NodeKind? ==> f != "config" && (f == "position" ==> !placed))
    case Axis(axis) => kind.NodeKind? && placed && (axis == "x" || axis == "y")
    case Setting(_) => kind.NodeKind?
  }

  /** Absent; a position can also be absent by being null. */
  predicate Missing(kind: Kind, p: Place, x: Option<Json>) {
    if kind.NodeKind? && p == Field("position") then !Present(x) else x.None?
  }

  /**
   * A removal if the target has nothing there, an addition of the target's value if only the target has
   * something, a replacement by the target's value otherwise; a coordinate is always replaced.
   */
  ghost predicate Brings(kind: Kind, p: Place, action: Action, from: Option<Json>, to: Option<Json>) {
    if p.Axis? then from != to && action == Replace(OrNull(to))
    else
      && OrNull(from) != OrNull(to)
      && match action
         case Remove => Missing(kind, p, to)
         case Add(w) => Missing(kind, p, from) && to == Some(w)
         case Replace(w) => !Missing(kind, p, from) && !Missing(kind, p, to) && to == Some(w)
  }

  ghost predicate BringsAt(kind: Kind, base: string, p: Place, op: Op, u: Json, v: Json) {
    && Compared(kind, u, v, p)
    && op.path == PathOf(base, p)
    && Brings(kind, p, op.action, ValueOf(u, p), ValueOf(v, p))
  }

  /** The field a place lies in. */
  function Within(p: Place): string {
    match p
    case Field(f) => f
    case Axis(_) => "position"
    case Setting(_) => "config"
  }

  ghost predicate BringsSome(kind: Kind, base: string, fields: seq<string>, op: Op, u: Json, v: Json) {
    exists p :: Within(p) in fields && BringsAt(kind, base, p, op, u, v)
  }

  ghost predicate BringsIn(kind: Kind, base: string, field: string, op: Op, u: Json, v: Json) {
    exists p :: Within(p) == field && BringsAt(kind, base, p, op, u, v)
  }

  lemma PlainField(path: string, from: Option<Json>, to: Option<Json>, op: Op)
    ensures op in DiffField(path, from, to) <==>
              && op.path == path && OrNull(from) != OrNull(to)
              && match op.action
                 case Remove => to.None?
                 case Add(w) => from.None? && to == Some(w)
                 case Replace(w) => from.Some? && to == Some(w)
  {
  }

  lemma {:induction false} SettingOps(path: string, f: map<string, Json>, g: map<string, Json>, keys: seq<string>,
                                      op: Op)
    ensures op in DiffKeys(path, f, g, keys) <==>
              exists k :: k in keys && op in DiffField(path + "/" + k, Lookup(f, k), Lookup(g, k))
    decreases |keys|
  {
    if keys != [] {
      var n := |keys| - 1;
      SettingOps(path, f, g, keys[..n], op);
      assert keys == keys[..n] + [keys[n]];
      hide DiffField;
    }
  }

  lemma SettingsBring(base: string, u: Json, v: Json, order: KeyOrder, op: Op)
    requires IsOrder(order)
    ensures op in OneField(NodeKind, base + "/config", "config", FieldIn(u, "config"), FieldIn(v, "config"), order) <==>
              exists k :: BringsAt(NodeKind, base, Setting(k), op, u, v)
  {
    var f, g := FieldsOf(FieldIn(u, "config")), FieldsOf(FieldIn(v, "config"));
    var path, all := base + "/config", f.Keys + g.Keys;
    var keys := order([path], all);
    assert SetOf(keys) == all;
    assert forall k :: k in keys <==> k in SetOf(keys);
    assert OneField(NodeKind, path, "config", FieldIn(u, "config"), FieldIn(v, "config"), order)
        == DiffKeys(path, f, g, keys);
    hide *;
    SettingOps(path, f, g, keys, op);
    forall k
      ensures k in keys && op in DiffField(path + "/" + k, Lookup(f, k), Lookup(g, k)) <==>
                BringsAt(NodeKind, base, Setting(k), op, u, v) {
      OneSetting(base, u, v, k, op);
    }
  }

  /** A key neither configuration has brings nothing. */
  lemma OneSetting(base: string, u: Json, v: Json, k: string, op: Op)
    ensures var f, g := FieldsOf(FieldIn(u, "config")), FieldsOf(FieldIn(v, "config"));
            && (op in DiffField(base + "/config" + "/" + k, Lookup(f, k), Lookup(g, k)) <==>
                  BringsAt(NodeKind, base, Setting(k), op, u, v))
            && (BringsAt(NodeKind, base, Setting(k), op, u, v) ==> k in f || k in g)
  {
    var f, g := FieldsOf(FieldIn(u, "config")), FieldsOf(FieldIn(v, "config"));
    hide FieldsOf;
    hide FieldIn;
    PlainField(base + "/config" + "/" + k, Lookup(f, k), Lookup(g, k), op);
    hide DiffField;
    SlashJoins(base, k);
  }

  lemma SlashJoins(base: string, k: string)
    ensures base + "/config" + "/" + k == base + "/config/" + k
  {
    Assoc(base, "/config", "/");
    assert "/config" + "/" == "/config/";
  }

  lemma PositionBrings(base: string, u: Json, v: Json, op: Op)
    ensures op in DiffPosition(base + "/position", FieldIn(u, "position"), FieldIn(v, "position")) <==>
              || BringsAt(NodeKind, base, Field("position"), op, u, v)
              || BringsAt(NodeKind, base, Axis("x"), op, u, v)
              || BringsAt(NodeKind, base, Axis("y"), op, u, v)
  {
    Assoc(base, "/position", "/");
    assert "/position" + "/" == "/position/";
    assert "position" in NODE_FIELDS by { assert NODE_FIELDS[3] == "position"; }
    assert base + "/" + "position" == base + "/position" by {
      Assoc(base, "/", "position");
      assert "/" + "position" == "/position";
    }
    hide NODE_FIELDS;
    hide FieldIn;
    hide FieldsOf;
  }

  lemma PlainFieldBrings(kind: Kind, base: string, field: string, u: Json, v: Json, op: Op)
    requires field in FieldList(kind) && (kind.NodeKind? ==> field != "config" && field != "position")
    ensures op in DiffField(base + "/" + field, FieldIn(u, field), FieldIn(v, field)) <==>
              BringsAt(kind, base, Field(field), op, u, v)
  {
    PlainField(base + "/" + field, FieldIn(u, field), FieldIn(v, field), op);
    hide DiffField;
    hide FieldIn;
    hide FieldList;
  }

  /** In a plain field the only place is the field. */
  lemma OnlyPlace(kind: Kind, base: string, field: string, u: Json, v: Json, op: Op)
    requires kind.NodeKind? ==> field != "config" && field != "position"
    ensures BringsIn(kind, base, field, op, u, v) <==> BringsAt(kind, base, Field(field), op, u, v)
  {
    hide Brings;
    hide FieldIn;
    hide FieldList;
    hide PathOf;
    hide ValueOf;
    assert Within(Field(field)) == field;
  }

  lemma FieldBrings(kind: Kind, base: string, field: string, u: Json, v: Json, order: KeyOrder, op: Op)
    requires IsOrder(order) && field in FieldList(kind)
    ensures op in OneField(kind, base + "/" + field, field, FieldIn(u, field), FieldIn(v, field), order) <==>
              BringsIn(kind, base, field, op, u, v)
  {
    hide BringsAt;
    hide FieldIn;
    hide FieldList;
    if kind.NodeKind? && field == "config" {
      SettingsBring(base, u, v, order, op);
      Assoc(base, "/", "config");
      assert base + "/config" == base + "/" + "config";
      assert forall k :: Within(Setting(k)) == "config";
      OnlySettings(base, u, v, op);
    } else if kind.NodeKind? && field == "position" {
      PositionBrings(base, u, v, op);
      Assoc(base, "/", "position");
      assert base + "/position" == base + "/" + "position";
      OnlyPositions(base, u, v, op);
    } else {
      PlainFieldBrings(kind, base, field, u, v, op);
      OnlyPlace(kind, base, field, u, v, op);
    }
  }

  lemma OnlySettings(base: string, u: Json, v: Json, op: Op)
    ensures BringsIn(NodeKind, base, "config", op, u, v) <==> exists k :: BringsAt(NodeKind, base, Setting(k), op, u, v)
  {
    hide Brings;
    hide FieldIn;
    hide FieldList;
    hide PathOf;
    hide ValueOf;
    assert forall k :: Within(Setting(k)) == "config";
  }

  lemma OnlyPositions(base: string, u: Json, v: Json, op: Op)
    ensures BringsIn(NodeKind, base, "position", op, u, v) <==>
              || BringsAt(NodeKind, base, Field("position"), op, u, v)
              || BringsAt(NodeKind, base, Axis("x"), op, u, v)
              || BringsAt(NodeKind, base, Axis("y"), op, u, v)
  {
    hide Brings;
    hide FieldIn;
    hide FieldList;
    hide PathOf;
    hide ValueOf;
    assert Within(Field("position")) == Within(Axis("x")) == Within(Axis("y")) == "position";
  }

  lemma BringsSomeSnoc(kind: Kind, base: string, fields: seq<string>, field: string, op: Op, u: Json, v: Json)
    ensures BringsSome(kind, base, fields + [field], op, u, v) <==>
              BringsSome(kind, base, fields, op, u, v) || BringsIn(kind, base, field, op, u, v)
  {
    hide BringsAt;
    hide Within;
  }

  lemma {:induction false} FieldsBring(kind: Kind, base: string, u: Json, v: Json, fields: seq<string>, order: KeyOrder,
                                       op: Op)
    requires IsOrder(order) && forall i :: 0 <= i < |fields| ==> fields[i] in FieldList(kind)
    ensures op in DiffFields(kind, base, u, v, fields, order) <==> BringsSome(kind, base, fields, op, u, v)
    decreases |fields|
  {
    if fields != [] {
      var front, field := fields[..|fields| - 1], fields[|fields| - 1];
      assert fields == front + [field];
      FieldsBring(kind, base, u, v, front, order, op);
      FieldBrings(kind, base, field, u, v, order, op);
      hide BringsSome;
      hide BringsIn;
      hide BringsAt;
      hide FieldIn;
      hide DiffFields;
      hide OneField;
      hide FieldList;
      DiffFieldsSnoc(kind, base, u, v, front, field, order);
      BringsSomeSnoc(kind, base, front, field, op, u, v);
    }
  }

  lemma BringsAnywhere(kind: Kind, base: string, op: Op, u: Json, v: Json)
    ensures BringsSome(kind, base, FieldList(kind), op, u, v) <==> exists p :: BringsAt(kind, base, p, op, u, v)
  {
    forall p | BringsAt(kind, base, p, op, u, v)
      ensures Within(p) in FieldList(kind) {
      PlaceIsListed(kind, base, p, op, u, v);
    }
    hide BringsAt;
    hide FieldList;
  }

  lemma PlaceIsListed(kind: Kind, base: string, p: Place, op: Op, u: Json, v: Json)
    requires BringsAt(kind, base, p, op, u, v)
    ensures Within(p) in FieldList(kind)
  {
    assert NODE_FIELDS[3] == "position" && NODE_FIELDS[4] == "config";
    hide Brings;
    hide PathOf;
    hide ValueOf;
    hide FieldIn;
    hide Present;
    hide NODE_FIELDS;
    hide EDGE_FIELDS;
  }

  /**
   * An operation is in the patch for an item kept in both snapshots if and only if, at one of the places
   * compared, it brings the value the target has there, or removes what the target does not have.
   */
  lemma KeptItemIsBrought(kind: Kind, from: Graph, to: Graph, order: KeyOrder, id: string, op: Op)
    requires IsOrder(order) && Named(ItemsOf(from, kind)) && Named(ItemsOf(to, kind))
    requires Get(ItemsOf(from, kind), id).Some? && Get(ItemsOf(to, kind), id).Some?
    ensures op in OpsOf(kind, GraphPatch(from, to, order), id) <==>
              exists p :: BringsAt(kind, Prefix(kind) + id, p, op,
                                   Get(ItemsOf(from, kind), id).value, Get(ItemsOf(to, kind), id).value)
  {
    var u, v := Get(ItemsOf(from, kind), id).value, Get(ItemsOf(to, kind), id).value;
    KeptOps(kind, from, to, order, id, op);
    hide GraphPatch;
    hide OpsOf;
    hide Get;
    hide DiffFields;
    FieldsBring(kind, Prefix(kind) + id, u, v, FieldList(kind), order, op);
    hide *;
    BringsAnywhere(kind, Prefix(kind) + id, op, u, v);
  }

  // ── Which operations a change lists ──────────────────────────────────────

  function TypePaths(changes: seq<Change>, what: ChangeType): seq<string> {
    if changes == [] then []
    else
      var c := changes[|changes| - 1];
      TypePaths(changes[..|changes| - 1], what) + (if c.what == what then c.paths else [])
  }

  function ShownPaths(id: string, ops: seq<Op>, what: ChangeType): seq<string> {
    if ops == [] then []
    else
      var op := ops[|ops| - 1];
      ShownPaths(id, ops[..|ops| - 1], what)
      + (if ShownAs(FieldOf("/nodes/" + id, op.path)) == Some(what) then [op.path] else [])
  }

  lemma TypePathsSnoc(changes: seq<Change>, c: Change, what: ChangeType)
    ensures TypePaths(changes + [c], what) == TypePaths(changes, what) + (if c.what == what then c.paths else [])
  {
    assert (changes + [c])[..|changes|] == changes;
  }

  ghost predicate OneConfig(changes: seq<Change>) {
    forall i, j :: 0 <= i < j < |changes| && changes[j].what == NodeConfigChanged ==>
        changes[i].what != NodeConfigChanged
  }

  ghost predicate WithoutConfig(changes: seq<Change>) {
    forall i :: 0 <= i < |changes| ==> changes[i].what != NodeConfigChanged
  }

  lemma AddConfigNew(changes: seq<Change>, id: string, path: string)
    requires WithoutConfig(changes)
    ensures AddConfigPath(changes, id, path) == changes + [Change(NodeConfigChanged, id, [path])]
  {
  }

  function Joining(changes: seq<Change>, k: nat, path: string): seq<Change>
    requires k < |changes|
  {
    changes[k := changes[k].(paths := changes[k].paths + [path])]
  }

  lemma JoiningFront(changes: seq<Change>, k: nat, path: string)
    requires k < |changes| - 1
    ensures Joining(changes, k, path) == Joining(changes[..|changes| - 1], k, path) + [changes[|changes| - 1]]
  {
  }

  lemma {:induction false} AddConfigAt(changes: seq<Change>, id: string, path: string, k: nat)
    requires OneConfig(changes) && k < |changes| && changes[k].what == NodeConfigChanged
    ensures AddConfigPath(changes, id, path) == Joining(changes, k, path)
    decreases |changes|
  {
    var n := |changes| - 1;
    if k < n {
      AddConfigAt(changes[..n], id, path, k);
      JoiningFront(changes, k, path);
    }
  }

  lemma {:induction false} SamePaths(x: seq<Change>, y: seq<Change>, what: ChangeType)
    requires |x| == |y| && forall i :: 0 <= i < |x| ==> x[i] == y[i] || (x[i].what != what && y[i].what != what)
    ensures TypePaths(x, what) == TypePaths(y, what)
  {
    if x != [] {
      SamePaths(x[..|x| - 1], y[..|y| - 1], what);
    }
  }

  lemma {:induction false} ConfigPathsAt(changes: seq<Change>, k: nat)
    requires OneConfig(changes) && k < |changes| && changes[k].what == NodeConfigChanged
    ensures TypePaths(changes, NodeConfigChanged) == changes[k].paths
    decreases |changes|
  {
    var n := |changes| - 1;
    if k < n {
      ConfigPathsAt(changes[..n], k);
    } else {
      NoConfigPaths(changes[..n]);
      assert [] + changes[k].paths == changes[k].paths;
    }
  }

  lemma {:induction false} NoConfigPaths(changes: seq<Change>)
    requires WithoutConfig(changes)
    ensures TypePaths(changes, NodeConfigChanged) == []
  {
    if changes != [] {
      NoConfigPaths(changes[..|changes| - 1]);
    }
  }

  lemma JoiningKeeps(changes: seq<Change>, k: nat, path: string, id: string)
    requires OneConfig(changes) && AllOf(changes, id) && k < |changes| && changes[k].what == NodeConfigChanged
    ensures OneConfig(Joining(changes, k, path)) && AllOf(Joining(changes, k, path), id)
  {
  }

  lemma ConfigPaths(changes: seq<Change>, id: string, path: string, what: ChangeType)
    requires OneConfig(changes) && AllOf(changes, id)
    ensures var after := AddConfigPath(changes, id, path);
            && OneConfig(after) && AllOf(after, id)
            && TypePaths(after, what) == TypePaths(changes, what) + (if what == NodeConfigChanged then [path] else [])
  {
    hide AddConfigPath;
    hide TypePaths;
    if WithoutConfig(changes) {
      AddConfigNew(changes, id, path);
      TypePathsSnoc(changes, Change(NodeConfigChanged, id, [path]), what);
    } else {
      var k :| 0 <= k < |changes| && changes[k].what == NodeConfigChanged;
      AddConfigAt(changes, id, path, k);
      JoiningKeeps(changes, k, path, id);
      if what == NodeConfigChanged {
        ConfigPathsAt(changes, k);
        ConfigPathsAt(Joining(changes, k, path), k);
      } else {
        SamePaths(changes, Joining(changes, k, path), what);
      }
    }
  }

  /** Everything is said of one item, and every change but the configuration's is about one operation. */
  ghost predicate AllOf(changes: seq<Change>, id: string) {
    forall i :: 0 <= i < |changes| ==>
      changes[i].id == id && (changes[i].what != NodeConfigChanged ==> |changes[i].paths| == 1)
  }

  lemma FormSnoc(changes: seq<Change>, c: Change, id: string)
    requires OneConfig(changes) && AllOf(changes, id) && c.id == id && c.what != NodeConfigChanged && |c.paths| == 1
    ensures OneConfig(changes + [c]) && AllOf(changes + [c], id)
  {
  }

  lemma ChangesListOne(changes: seq<Change>, id: string, op: Op, what: ChangeType)
    requires OneConfig(changes) && AllOf(changes, id)
    ensures var shown := ShownAs(FieldOf("/nodes/" + id, op.path));
            && OneConfig(FieldChange(changes, id, op)) && AllOf(FieldChange(changes, id, op), id)
            && TypePaths(FieldChange(changes, id, op), what)
            == TypePaths(changes, what) + (if shown == Some(what) then [op.path] else [])
  {
    var shown := ShownAs(FieldOf("/nodes/" + id, op.path));
    hide ShownAs;
    hide FieldOf;
    hide AddConfigPath;
    hide OneConfig;
    hide AllOf;
    hide TypePaths;
    assert TypePaths(changes, what) + [] == TypePaths(changes, what);
    if shown == Some(NodeConfigChanged) {
      ConfigPaths(changes, id, op.path, what);
    } else if shown.Some? {
      var c := Change(shown.value, id, [op.path]);
      TypePathsSnoc(changes, c, what);
      FormSnoc(changes, c, id);
    }
  }

  lemma FieldChangesUnfold(id: string, ops: seq<Op>)
    requires ops != []
    ensures FieldChanges(id, ops) == FieldChange(FieldChanges(id, ops[..|ops| - 1]), id, ops[|ops| - 1])
  {
    hide FieldChange;
  }

  lemma ShownPathsUnfold(id: string, ops: seq<Op>, what: ChangeType)
    requires ops != []
    ensures var op := ops[|ops| - 1];
            ShownPaths(id, ops, what) == ShownPaths(id, ops[..|ops| - 1], what)
            + (if ShownAs(FieldOf("/nodes/" + id, op.path)) == Some(what) then [op.path] else [])
  {
    hide ShownAs;
    hide FieldOf;
  }

  /**
   * All changes of a kept node carry its id, and for each type the paths they list are those of the
   * operations shown as that type, each once and in the patch's order.
   */
  lemma {:induction false} ChangesListOperations(id: string, ops: seq<Op>, what: ChangeType)
    ensures AllOf(FieldChanges(id, ops), id) && OneConfig(FieldChanges(id, ops))
    ensures TypePaths(FieldChanges(id, ops), what) == ShownPaths(id, ops, what)
  {
    if ops != [] {
      var n := |ops| - 1;
      var before, path := FieldChanges(id, ops[..n]), ops[n].path;
      ChangesListOperations(id, ops[..n], what);
      ChangesListOne(before, id, ops[n], what);
      hide *;
      FieldChangesUnfold(id, ops);
      ShownPathsUnfold(id, ops, what);
    }
  }
}
