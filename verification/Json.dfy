/**
 * JSON values as the graph contract sees them, its structural comparison, and the string paths its
 * patches are written with (section 3 of RFC 6901, without the ~ escapes).
 */
module Json {
  import opened Seqs

  datatype Json =
    | Null
    | Bool(b: bool)
    | Num(n: real)
    | Str(s: string)
    | Arr(items: seq<Json>)
    | Obj(fields: map<string, Json>)

  predicate Container(j: Json) {
    j.Arr? || j.Obj?
  }

  // ── Keys and properties ──────────────────────────────────────────────────

  function Digit(d: nat): (c: char)
    requires d < 10
    ensures '0' <= c <= '9'
  {
    ('0' as int + d) as char
  }

  /** The property name of an array position. */
  function IndexKey(i: nat): (key: string)
    ensures key != "" && forall k :: 0 <= k < |key| ==> '0' <= key[k] <= '9'
    ensures |key| == 1 <==> i < 10
  {
    if i < 10 then [Digit(i)] else IndexKey(i / 10) + [Digit(i % 10)]
  }

  lemma {:induction false} IndexKeyInjective(i: nat, j: nat)
    requires IndexKey(i) == IndexKey(j)
    ensures i == j
  {
    var a, b := IndexKey(i), IndexKey(j);
    assert a[|a| - 1] == Digit(i % 10) && b[|b| - 1] == Digit(j % 10);
    if i >= 10 && j >= 10 {
      assert a[..|a| - 1] == IndexKey(i / 10) && b[..|b| - 1] == IndexKey(j / 10);
      IndexKeyInjective(i / 10, j / 10);
    }
  }

  /** The position below n with this name, or -1. */
  function FindIndex(key: string, n: nat): (i: int)
    ensures -1 <= i < n
    ensures i >= 0 ==> IndexKey(i) == key
    ensures i < 0 ==> forall k: nat :: k < n ==> IndexKey(k) != key
  {
    if n == 0 then -1 else if IndexKey(n - 1) == key then n - 1 else FindIndex(key, n - 1)
  }

  /** Object.keys */
  function OwnKeys(j: Json): set<string>
    requires Container(j)
  {
    match j
    case Obj(f) => f.Keys
    case Arr(s) => set i | 0 <= i < |s| :: IndexKey(i)
  }

  function Own(j: Json, key: string): (child: Json)
    requires Container(j) && key in OwnKeys(j)
    ensures child < j
  {
    match j
    case Obj(f) => f[key]
    case Arr(s) => s[FindIndex(key, |s|)]
  }

  /** j[key]; an array also answers to "length". */
  function Property(j: Json, key: string): (p: Option<Json>)
    requires Container(j)
    ensures p.Some? && Container(p.value) ==> p.value < j
    ensures key in OwnKeys(j) ==> p == Some(Own(j, key))
  {
    match j
    case Obj(f) => Lookup(f, key)
    case Arr(s) =>
      if FindIndex(key, |s|) >= 0 then Some(s[FindIndex(key, |s|)])
      else if key == "length" then Some(Num(|s| as real))
      else None
  }

  function Lookup(f: map<string, Json>, key: string): Option<Json> {
    if key in f then Some(f[key]) else None
  }

  // ── Structural comparison ────────────────────────────────────────────────

  predicate DeepEqual(a: Json, b: Json)
    decreases a
  {
    if a.Arr? && b.Arr? then
      |a.items| == |b.items| && forall i :: 0 <= i < |a.items| ==> DeepEqual(a.items[i], b.items[i])
    else if Container(a) && Container(b) then
      && |OwnKeys(a)| == |OwnKeys(b)|
      && forall k :: k in OwnKeys(a) ==> Property(b, k).Some? && DeepEqual(Own(a, k), Property(b, k).value)
    else
      a == b
  }

  lemma {:induction false} DeepEqualReflexive(a: Json)
    ensures DeepEqual(a, a)
    decreases a
  {
    if a.Arr? {
      forall i | 0 <= i < |a.items| ensures DeepEqual(a.items[i], a.items[i]) {
        DeepEqualReflexive(a.items[i]);
      }
    } else if a.Obj? {
      forall k | k in OwnKeys(a) ensures DeepEqual(Own(a, k), Own(a, k)) {
        DeepEqualReflexive(Own(a, k));
      }
    }
  }

  /** No array faces an object at a path both values have. */
  predicate SameKinds(a: Json, b: Json)
    decreases a
  {
    match (a, b)
    case (Arr(s), Arr(t)) => forall i :: 0 <= i < |s| && i < |t| ==> SameKinds(s[i], t[i])
    case (Obj(f), Obj(g)) => forall k :: k in f && k in g ==> SameKinds(f[k], g[k])
    case (_, _) => !(Container(a) && Container(b))
  }

  /** Between values of the same kinds the comparison is equality. */
  lemma {:induction false} DeepEqualIsEquality(a: Json, b: Json)
    requires SameKinds(a, b)
    ensures DeepEqual(a, b) <==> a == b
    decreases a
  {
    if a == b {
      DeepEqualReflexive(a);
    }
    if DeepEqual(a, b) {
      if a.Arr? {
        assert b.Arr?;
        forall i | 0 <= i < |a.items| ensures a.items[i] == b.items[i] {
          DeepEqualIsEquality(a.items[i], b.items[i]);
        }
        assert a.items == b.items;
      } else if a.Obj? {
        assert forall k :: k in a.fields ==> k in b.fields by {
          assert forall k :: k in OwnKeys(a) ==> Property(b, k).Some?;
        }
        SubsetSize(a.fields.Keys, b.fields.Keys);
        forall k | k in a.fields ensures a.fields[k] == b.fields[k] {
          DeepEqualIsEquality(Own(a, k), Property(b, k).value);
        }
        assert a.fields == b.fields;
      }
    }
  }

  /** Across kinds it is not: an array passes for the object with its index keys, and for a length. */
  lemma DeepEqualConfusesKinds(x: Json)
    ensures DeepEqual(Arr([x]), Obj(map["0" := x])) && DeepEqual(Obj(map["0" := x]), Arr([x]))
    ensures DeepEqual(Obj(map["length" := Num(1.0)]), Arr([x])) && !DeepEqual(Arr([x]), Obj(map["length" := Num(1.0)]))
  {
    var a, b, c := Arr([x]), Obj(map["0" := x]), Obj(map["length" := Num(1.0)]);
    assert IndexKey(0) == "0";
    assert OwnKeys(a) == {"0"} == OwnKeys(b);
    assert OwnKeys(c) == {"length"};
    DeepEqualReflexive(x);
    assert Property(c, "0") == None;
    assert FindIndex("length", 1) < 0;
    assert Property(a, "length") == Some(Num(1.0));
    assert "0" in OwnKeys(a);
  }

  // ── Paths ────────────────────────────────────────────────────────────────

  /** path.split("/").filter(Boolean) */
  function Segments(path: string): seq<string>
    decreases |path|
  {
    var i := IndexOf(path, '/');
    if i < 0 then NonEmpty(path) else NonEmpty(path[..i]) + Segments(path[i + 1..])
  }

  function NonEmpty(s: string): seq<string> {
    if s == "" then [] else [s]
  }

  predicate SlashFree(s: string) {
    forall i :: 0 <= i < |s| ==> s[i] != '/'
  }

  /** A key that a path can carry. */
  predicate GoodKey(key: string) {
    key != "" && SlashFree(key)
  }

  lemma SegmentsCut(a: string, b: string)
    requires forall j :: 0 <= j < |a| ==> a[j] != '/'
    ensures Segments(a + "/" + b) == NonEmpty(a) + Segments(b)
  {
    var path := a + "/" + b;
    IndexOfIs(path, '/', |a|);
    assert path[..|a|] == a && path[|a| + 1..] == b;
  }

  lemma {:induction false} SegmentsAppend(base: string, tail: string)
    ensures Segments(base + "/" + tail) == Segments(base) + Segments(tail)
    decreases |base|
  {
    hide Segments;
    hide NonEmpty;
    var i := IndexOf(base, '/');
    if i < 0 {
      SegmentsCut(base, tail);
      SegmentsOfOne(base);
    } else {
      var a, b := base[..i], base[i + 1..];
      assert base == a + "/" + b;
      assert base + "/" + tail == a + "/" + (b + "/" + tail);
      SegmentsCut(a, b);
      SegmentsCut(a, b + "/" + tail);
      SegmentsAppend(b, tail);
    }
  }

  lemma SegmentsOfOne(s: string)
    requires '/' !in s
    ensures Segments(s) == NonEmpty(s)
  {
  }

  /** A key without slash adds exactly one segment. */
  lemma SegmentsOfChild(base: string, key: string)
    requires GoodKey(key)
    ensures Segments(base + "/" + key) == Segments(base) + [key]
  {
    SegmentsAppend(base, key);
    assert IndexOf(key, '/') < 0;
  }
}
