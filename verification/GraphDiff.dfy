/** The recursive diff of two JSON values and the applier that walks its paths. */
module GraphDiff {
  import opened Seqs
  import opened Json

  datatype Action = Add(value: Json) | Remove | Replace(value: Json)

  /** A patch operation as printed: its path is a string. */
  datatype Op = Op(path: string, action: Action)

  /** An operation with its path split; the applier works on these. */
  datatype Step = Step(segs: seq<string>, action: Action)

  // ── Finding the operations ───────────────────────────────────────────────

  /** The enumeration order of an object's keys, which differs from one object to the next. */
  type KeyOrder = (seq<string>, set<string>) -> seq<string>

  ghost predicate IsOrder(order: KeyOrder) {
    forall at, keys :: NoDup(order(at, keys)) && SetOf(order(at, keys)) == keys
  }

  predicate BothContainers(from: Option<Json>, to: Option<Json>) {
    from.Some? && to.Some? && Container(from.value) && Container(to.value)
  }

  /** What a value and its counterpart need when they are not searched further. */
  function LeafAction(from: Option<Json>, to: Option<Json>): Option<Action> {
    match (from, to)
    case (None, None) => None
    case (None, Some(v)) => Some(Add(v))
    case (Some(_), None) => Some(Remove)
    case (Some(u), Some(v)) => if DeepEqual(u, v) then None else Some(Replace(v))
  }

  function LeafOps(from: Option<Json>, to: Option<Json>, base: string): seq<Op> {
    match LeafAction(from, to)
    case None => []
    case Some(action) => [Op(base, action)]
  }

  /** at is the key path of the pair, base its printed form. */
  function FindOps(from: Option<Json>, to: Option<Json>, base: string, at: seq<string>, order: KeyOrder): seq<Op> {
    if BothContainers(from, to) then DeepOps(from.value, to.value, base, at, order) else LeafOps(from, to, base)
  }

  function DeepOps(from: Json, to: Json, base: string, at: seq<string>, order: KeyOrder): seq<Op>
    requires Container(from) && Container(to)
    decreases from, 1, 0
  {
    if DeepEqual(from, to) then []
    else if from.Arr? && to.Arr? then [Op(base, Replace(to))]
    else KeysOps(from, to, base, at, order, order(at, OwnKeys(from) + OwnKeys(to)))
  }

  function KeysOps(from: Json, to: Json, base: string, at: seq<string>, order: KeyOrder, keys: seq<string>): seq<Op>
    requires Container(from) && Container(to)
    decreases from, 0, |keys|
  {
    if keys == [] then []
    else
      var key := keys[|keys| - 1];
      var f, t := Property(from, key), Property(to, key);
      KeysOps(from, to, base, at, order, keys[..|keys| - 1])
      + (if BothContainers(f, t) then DeepOps(f.value, t.value, base + "/" + key, at + [key], order)
         else LeafOps(f, t, base + "/" + key))
  }

  // ── The same, with key paths in place of strings ─────────────────────────

  function Prepend(pre: seq<string>, steps: seq<Step>): (r: seq<Step>)
    ensures |r| == |steps|
    ensures forall i :: 0 <= i < |r| ==> r[i] == Step(pre + steps[i].segs, steps[i].action)
  {
    seq(|steps|, i requires 0 <= i < |steps| => Step(pre + steps[i].segs, steps[i].action))
  }

  function LeafSteps(from: Option<Json>, to: Option<Json>): seq<Step> {
    match LeafAction(from, to)
    case None => []
    case Some(action) => [Step([], action)]
  }

  function FindSteps(from: Option<Json>, to: Option<Json>, at: seq<string>, order: KeyOrder): seq<Step> {
    if BothContainers(from, to) then DeepSteps(from.value, to.value, at, order) else LeafSteps(from, to)
  }

  function DeepSteps(from: Json, to: Json, at: seq<string>, order: KeyOrder): seq<Step>
    requires Container(from) && Container(to)
    decreases from, 1, 0
  {
    if DeepEqual(from, to) then []
    else if from.Arr? && to.Arr? then [Step([], Replace(to))]
    else KeysSteps(from, to, at, order, order(at, OwnKeys(from) + OwnKeys(to)))
  }

  function KeysSteps(from: Json, to: Json, at: seq<string>, order: KeyOrder, keys: seq<string>): seq<Step>
    requires Container(from) && Container(to)
    decreases from, 0, |keys|
  {
    if keys == [] then []
    else
      var key := keys[|keys| - 1];
      var f, t := Property(from, key), Property(to, key);
      KeysSteps(from, to, at, order, keys[..|keys| - 1])
      + Prepend([key], if BothContainers(f, t) then DeepSteps(f.value, t.value, at + [key], order) else LeafSteps(f, t))
  }

  function StepOf(op: Op): Step {
    Step(Segments(op.path), op.action)
  }

  function StepsOf(ops: seq<Op>): (r: seq<Step>)
    ensures |r| == |ops|
    ensures forall i :: 0 <= i < |r| ==> r[i] == StepOf(ops[i])
  {
    seq(|ops|, i requires 0 <= i < |ops| => StepOf(ops[i]))
  }

  /** Every object key in the tree is non-empty and has no slash. */
  predicate GoodKeys(j: Json)
    decreases j
  {
    match j
    case Arr(s) => forall i :: 0 <= i < |s| ==> GoodKeys(s[i])
    case Obj(f) => forall k :: k in f ==> GoodKey(k) && GoodKeys(f[k])
    case _ => true
  }

  predicate GoodKeysOpt(j: Option<Json>) {
    j.Some? ==> GoodKeys(j.value)
  }

  lemma IndexKeyIsGood(i: nat)
    ensures GoodKey(IndexKey(i))
  {
  }

  lemma OwnKeysAreGood(j: Json)
    requires Container(j) && GoodKeys(j)
    ensures forall k :: k in OwnKeys(j) ==> GoodKey(k)
  {
    forall k | k in OwnKeys(j) ensures GoodKey(k) {
      if j.Arr? {
        var i :| 0 <= i < |j.items| && IndexKey(i) == k;
        IndexKeyIsGood(i);
      }
    }
  }

  lemma PropertyIsGood(j: Json, key: string)
    requires Container(j) && GoodKeys(j)
    ensures GoodKeysOpt(Property(j, key))
  {
  }

  lemma PrependConcat(pre: seq<string>, a: seq<Step>, b: seq<Step>)
    ensures Prepend(pre, a + b) == Prepend(pre, a) + Prepend(pre, b)
  {
  }

  lemma PrependTwice(pre: seq<string>, key: string, steps: seq<Step>)
    ensures Prepend(pre, Prepend([key], steps)) == Prepend(pre + [key], steps)
  {
    forall i | 0 <= i < |steps| ensures pre + ([key] + steps[i].segs) == pre + [key] + steps[i].segs {
    }
  }

  lemma StepsOfConcat(a: seq<Op>, b: seq<Op>)
    ensures StepsOf(a + b) == StepsOf(a) + StepsOf(b)
  {
  }

  lemma LeafParses(from: Option<Json>, to: Option<Json>, base: string)
    ensures StepsOf(LeafOps(from, to, base)) == Prepend(Segments(base), LeafSteps(from, to))
  {
    assert Segments(base) + [] == Segments(base);
  }

  lemma {:induction false} DeepParses(from: Json, to: Json, base: string, at: seq<string>, order: KeyOrder)
    requires Container(from) && Container(to) && GoodKeys(from) && GoodKeys(to) && IsOrder(order)
    ensures StepsOf(DeepOps(from, to, base, at, order)) == Prepend(Segments(base), DeepSteps(from, to, at, order))
    decreases from, 1, 0
  {
    if DeepEqual(from, to) {
    } else if from.Arr? && to.Arr? {
      assert Segments(base) + [] == Segments(base);
    } else {
      var keys := order(at, OwnKeys(from) + OwnKeys(to));
      assert forall k :: k in SetOf(keys) ==> k in OwnKeys(from) + OwnKeys(to);
      OwnKeysAreGood(from);
      OwnKeysAreGood(to);
      assert forall k :: k in keys ==> k in SetOf(keys);
      KeysParse(from, to, base, at, order, keys);
    }
  }

  lemma {:induction false} KeysParse(from: Json, to: Json, base: string, at: seq<string>, order: KeyOrder,
                                     keys: seq<string>)
    requires Container(from) && Container(to) && GoodKeys(from) && GoodKeys(to) && IsOrder(order)
    requires forall k :: k in keys ==> GoodKey(k)
    ensures StepsOf(KeysOps(from, to, base, at, order, keys)) ==
              Prepend(Segments(base), KeysSteps(from, to, at, order, keys))
    decreases from, 0, |keys|
  {
    if keys != [] {
      var n := |keys| - 1;
      var key := keys[n];
      var f, t := Property(from, key), Property(to, key);
      PropertyIsGood(from, key);
      PropertyIsGood(to, key);
      assert key in keys;
      hide GoodKeys;
      hide Property;
      hide IsOrder;
      KeysParse(from, to, base, at, order, keys[..n]);
      SegmentsOfChild(base, key);
      var sub := base + "/" + key;
      if BothContainers(f, t) {
        DeepParses(f.value, t.value, sub, at + [key], order);
      } else {
        LeafParses(f, t, sub);
      }
      KeysParseStep(KeysOps(from, to, base, at, order, keys[..n]), FindOps(f, t, sub, at + [key], order),
                    KeysSteps(from, to, at, order, keys[..n]), FindSteps(f, t, at + [key], order), Segments(base), key);
    }
  }

  lemma KeysParseStep(ops: seq<Op>, more: seq<Op>, steps: seq<Step>, further: seq<Step>, pre: seq<string>, key: string)
    requires StepsOf(ops) == Prepend(pre, steps)
    requires StepsOf(more) == Prepend(pre + [key], further)
    ensures StepsOf(ops + more) == Prepend(pre, steps + Prepend([key], further))
  {
    StepsOfConcat(ops, more);
    PrependTwice(pre, key, further);
    PrependConcat(pre, steps, Prepend([key], further));
  }

  /** The printed paths parse back to the key paths. */
  lemma FindOpsParse(from: Option<Json>, to: Option<Json>, base: string, at: seq<string>, order: KeyOrder)
    requires GoodKeysOpt(from) && GoodKeysOpt(to) && IsOrder(order)
    ensures StepsOf(FindOps(from, to, base, at, order)) == Prepend(Segments(base), FindSteps(from, to, at, order))
  {
    if BothContainers(from, to) {
      DeepParses(from.value, to.value, base, at, order);
    } else {
      LeafParses(from, to, base);
    }
  }

  // ── Applying them ────────────────────────────────────────────────────────

  /** Writing the last key of a path into the value the walk arrived at. */
  function WriteLeaf(j: Json, key: string, action: Action): Json {
    match j
    case Obj(f) =>
      (match action
       case Remove => Obj(f - {key})
       case _ => Obj(f[key := action.value]))
    case Arr(s) =>
      var i := FindIndex(key, |s|);
      if action.Add? && key == "-" then Arr(s + [action.value])
      else if i < 0 then j
      else if action.Remove? then Arr(s[..i] + s[i + 1..])
      else Arr(s[i := action.value])
    case _ => j
  }

  /** The walk: a step into something that has no such property ends without effect. */
  function ApplyAt(j: Json, segs: seq<string>, action: Action): Json
    requires segs != []
    decreases |segs|
  {
    if |segs| == 1 then WriteLeaf(j, segs[0], action)
    else
      match j
      case Obj(f) => if segs[0] in f then Obj(f[segs[0] := ApplyAt(f[segs[0]], segs[1..], action)]) else j
      case Arr(s) =>
        var i := FindIndex(segs[0], |s|);
        if i < 0 then j else Arr(s[i := ApplyAt(s[i], segs[1..], action)])
      case _ => j
  }

  /** A path without segments has no last key, and the key written is then "undefined". */
  function Target(segs: seq<string>): seq<string> {
    if segs == [] then ["undefined"] else segs
  }

  function ApplySteps(j: Json, steps: seq<Step>): Json
    decreases |steps|
  {
    if steps == [] then j
    else
      var last := steps[|steps| - 1];
      ApplyAt(ApplySteps(j, steps[..|steps| - 1]), Target(last.segs), last.action)
  }

  function ApplyOps(j: Json, ops: seq<Op>): Json {
    ApplySteps(j, StepsOf(ops))
  }

  lemma {:induction false} ApplyConcat(j: Json, a: seq<Step>, b: seq<Step>)
    ensures ApplySteps(j, a + b) == ApplySteps(ApplySteps(j, a), b)
    decreases |b|
  {
    if b == [] {
      assert a + b == a;
    } else {
      assert (a + b)[..|a + b| - 1] == a + b[..|b| - 1];
      ApplyConcat(j, a, b[..|b| - 1]);
    }
  }

  predicate Below(steps: seq<Step>) {
    forall i :: 0 <= i < |steps| ==> steps[i].segs != []
  }

  lemma ApplyUnder(o: map<string, Json>, key: string, segs: seq<string>, action: Action)
    requires key in o && segs != []
    ensures ApplyAt(Obj(o), [key] + segs, action) == Obj(o[key := ApplyAt(o[key], segs, action)])
  {
    var all := [key] + segs;
    assert all[0] == key && all[1..] == segs;
  }

  lemma ApplySnoc(j: Json, steps: seq<Step>, last: Step)
    ensures ApplySteps(j, steps + [last]) == ApplyAt(ApplySteps(j, steps), Target(last.segs), last.action)
  {
    assert (steps + [last])[..|steps|] == steps;
  }

  lemma LiftOne(o: map<string, Json>, key: string, steps: seq<Step>, last: Step)
    requires key in o && last.segs != []
    requires ApplySteps(Obj(o), Prepend([key], steps)) == Obj(o[key := ApplySteps(o[key], steps)])
    ensures ApplySteps(Obj(o), Prepend([key], steps + [last])) == Obj(o[key := ApplySteps(o[key], steps + [last])])
  {
    hide ApplySteps;
    hide ApplyAt;
    var under := Step([key] + last.segs, last.action);
    assert Prepend([key], steps + [last]) == Prepend([key], steps) + [under];
    ApplySnoc(Obj(o), Prepend([key], steps), under);
    ApplySnoc(o[key], steps, last);
    var v := ApplySteps(o[key], steps);
    ApplyUnder(o[key := v], key, last.segs, last.action);
    assert o[key := v][key] == v;
    var w := ApplyAt(v, last.segs, last.action);
    assert o[key := v][key := w] == o[key := w];
  }

  /** Steps below a key change what is at that key and nothing else. */
  lemma {:induction false} Lift(o: map<string, Json>, key: string, steps: seq<Step>)
    requires key in o && Below(steps)
    ensures ApplySteps(Obj(o), Prepend([key], steps)) == Obj(o[key := ApplySteps(o[key], steps)])
    decreases |steps|
  {
    if steps == [] {
      assert o[key := o[key]] == o;
    } else {
      var front, last := steps[..|steps| - 1], steps[|steps| - 1];
      assert Below(front) && last.segs != [];
      assert steps == front + [last];
      hide *;
      Lift(o, key, front);
      LiftOne(o, key, front, last);
    }
  }

  // ── What the operations make of a value ──────────────────────────────────

  function Update(o: map<string, Json>, key: string, v: Option<Json>): map<string, Json> {
    match v
    case None => o - {key}
    case Some(j) => o[key := j]
  }

  function Patched(from: Option<Json>, to: Option<Json>, at: seq<string>, order: KeyOrder): Option<Json> {
    if BothContainers(from, to) then Some(DeepPatched(from.value, to.value, at, order))
    else if LeafAction(from, to).None? then from
    else to
  }

  function DeepPatched(from: Json, to: Json, at: seq<string>, order: KeyOrder): Json
    requires Container(from) && Container(to)
  {
    if DeepEqual(from, to) then from
    else if from.Arr? && to.Arr? then to
    else ApplySteps(from, KeysSteps(from, to, at, order, order(at, OwnKeys(from) + OwnKeys(to))))
  }

  lemma {:induction false} KeysStepsBelow(from: Json, to: Json, at: seq<string>, order: KeyOrder, keys: seq<string>)
    requires Container(from) && Container(to)
    ensures Below(KeysSteps(from, to, at, order, keys))
    decreases |keys|
  {
    if keys != [] {
      KeysStepsBelow(from, to, at, order, keys[..|keys| - 1]);
    }
  }

  lemma ApplyOne(j: Json, step: Step)
    ensures ApplySteps(j, [step]) == ApplyAt(j, Target(step.segs), step.action)
  {
    assert [step][..0] == [];
  }

  /** The steps of one key, applied to the object that holds it. */
  lemma ChildStep(o: map<string, Json>, key: string, to: Option<Json>, at: seq<string>, order: KeyOrder)
    ensures ApplySteps(Obj(o), Prepend([key], FindSteps(Lookup(o, key), to, at, order)))
         == Obj(Update(o, key, Patched(Lookup(o, key), to, at, order)))
  {
    var from := Lookup(o, key);
    if BothContainers(from, to) && !DeepEqual(from.value, to.value) && !(from.value.Arr? && to.value.Arr?) {
      var keys := order(at, OwnKeys(from.value) + OwnKeys(to.value));
      KeysStepsBelow(from.value, to.value, at, order, keys);
      hide KeysSteps;
      hide ApplySteps;
      Lift(o, key, KeysSteps(from.value, to.value, at, order, keys));
    } else {
      var steps := FindSteps(from, to, at, order);
      LeafForm(from, to, at, order);
      hide FindSteps;
      hide Patched;
      if steps == [] {
        assert Update(o, key, from) == o;
        assert Prepend([key], steps) == [];
      } else {
        var step := Step([key], steps[0].action);
        assert [key] + [] == [key];
        assert Prepend([key], steps) == [step];
        ApplyOne(Obj(o), step);
      }
    }
  }

  /** Without a search of common keys there is at most one step, at the value itself. */
  lemma LeafForm(from: Option<Json>, to: Option<Json>, at: seq<string>, order: KeyOrder)
    requires BothContainers(from, to) ==> DeepEqual(from.value, to.value) || (from.value.Arr? && to.value.Arr?)
    ensures var steps := FindSteps(from, to, at, order);
            || (steps == [] && Patched(from, to, at, order) == from)
            || (Patched(from, to, at, order) == to && exists action ::
                  && steps == [Step([], action)]
                  && (if to.None? then action == Remove else (action == Add(to.value) || action == Replace(to.value))))
  {
    if BothContainers(from, to) {
      if !DeepEqual(from.value, to.value) {
        assert FindSteps(from, to, at, order) == [Step([], Replace(to.value))];
      }
    } else if LeafAction(from, to).Some? {
      assert FindSteps(from, to, at, order) == [Step([], LeafAction(from, to).value)];
    }
  }

  /** r is f with the keys listed patched towards g. */
  ghost predicate PatchedOn(r: Json, f: map<string, Json>, g: map<string, Json>, at: seq<string>, order: KeyOrder,
                            keys: seq<string>)
  {
    && r.Obj?
    && (forall k :: k in keys ==> Lookup(r.fields, k) == Patched(Lookup(f, k), Lookup(g, k), at + [k], order))
    && (forall k :: k !in keys ==> Lookup(r.fields, k) == Lookup(f, k))
  }

  lemma KeysSnoc(from: Json, to: Json, at: seq<string>, order: KeyOrder, keys: seq<string>, key: string)
    requires Container(from) && Container(to)
    ensures KeysSteps(from, to, at, order, keys + [key])
         == KeysSteps(from, to, at, order, keys)
          + Prepend([key], FindSteps(Property(from, key), Property(to, key), at + [key], order))
  {
    assert (keys + [key])[..|keys|] == keys;
  }

  lemma PatchOneMore(mid: map<string, Json>, f: map<string, Json>, g: map<string, Json>, at: seq<string>,
                     order: KeyOrder, keys: seq<string>, key: string)
    requires PatchedOn(Obj(mid), f, g, at, order, keys) && key !in keys
    ensures PatchedOn(Obj(Update(mid, key, Patched(Lookup(f, key), Lookup(g, key), at + [key], order))),
                      f, g, at, order, keys + [key])
  {
    hide Patched;
    var v := Patched(Lookup(f, key), Lookup(g, key), at + [key], order);
    var r := Update(mid, key, v);
    assert Lookup(r, key) == v;
    assert forall k :: k != key ==> Lookup(r, k) == Lookup(mid, k);
    assert forall k :: k in keys + [key] <==> k in keys || k == key;
  }

  /** The steps of several keys of an object. */
  lemma {:induction false} KeysApply(f: map<string, Json>, g: map<string, Json>, at: seq<string>, order: KeyOrder,
                                     keys: seq<string>)
    requires NoDup(keys)
    ensures PatchedOn(ApplySteps(Obj(f), KeysSteps(Obj(f), Obj(g), at, order, keys)), f, g, at, order, keys)
    decreases |keys|
  {
    if keys != [] {
      var n := |keys| - 1;
      var key := keys[n];
      assert keys == keys[..n] + [key];
      assert key !in keys[..n];
      KeysApply(f, g, at, order, keys[..n]);
      var before := KeysSteps(Obj(f), Obj(g), at, order, keys[..n]);
      var more := Prepend([key], FindSteps(Lookup(f, key), Lookup(g, key), at + [key], order));
      KeysSnoc(Obj(f), Obj(g), at, order, keys[..n], key);
      hide KeysSteps;
      hide ApplySteps;
      hide Patched;
      hide FindSteps;
      ApplyConcat(Obj(f), before, more);
      var mid := ApplySteps(Obj(f), before).fields;
      assert Lookup(mid, key) == Lookup(f, key);
      PatchOneMore(mid, f, g, at, order, keys[..n], key);
      hide PatchedOn;
      ChildStep(mid, key, Lookup(g, key), at + [key], order);
    }
  }

  // ── When the target is reached ───────────────────────────────────────────

  /**
   * No object and array face each other where the search descends, and where the comparison reports
   * no difference there is none.
   */
  predicate Reproducible(from: Option<Json>, to: Option<Json>) {
    BothContainers(from, to) ==> DeepReproducible(from.value, to.value)
  }

  predicate DeepReproducible(from: Json, to: Json)
    requires Container(from) && Container(to)
    decreases from
  {
    if DeepEqual(from, to) then from == to
    else if from.Arr? && to.Arr? then true
    else if from.Obj? && to.Obj? then
      forall k :: k in from.fields && k in to.fields && Container(from.fields[k]) && Container(to.fields[k]) ==>
        DeepReproducible(from.fields[k], to.fields[k])
    else false
  }

  lemma ApplyKeepsKind(j: Json, segs: seq<string>, action: Action)
    requires segs != []
    ensures ApplyAt(j, segs, action).Arr? == j.Arr?
  {
  }

  lemma {:induction false} StepsKeepKind(j: Json, steps: seq<Step>)
    ensures ApplySteps(j, steps).Arr? == j.Arr?
    decreases |steps|
  {
    if steps != [] {
      var n := |steps| - 1;
      StepsKeepKind(j, steps[..n]);
      ApplyKeepsKind(ApplySteps(j, steps[..n]), Target(steps[n].segs), steps[n].action);
    }
  }

  lemma LeafReaches(from: Option<Json>, to: Option<Json>, at: seq<string>, order: KeyOrder)
    requires !BothContainers(from, to)
    ensures Patched(from, to, at, order) == to
  {
  }

  lemma LookupsDecide(f: map<string, Json>, g: map<string, Json>)
    ensures f == g <==> forall k :: Lookup(f, k) == Lookup(g, k)
  {
    if forall k :: Lookup(f, k) == Lookup(g, k) {
      assert forall k :: k in f <==> Lookup(f, k).Some?;
      assert forall k :: k in g <==> Lookup(g, k).Some?;
      assert forall k :: k in f ==> Lookup(f, k).value == f[k];
      assert forall k :: k in f ==> Lookup(g, k).value == g[k];
    }
  }

  /** Key by key: f reaches g where its values do, and the absent keys agree anyway. */
  ghost predicate KeysReproducible(f: map<string, Json>, g: map<string, Json>) {
    forall k :: Reproducible(Lookup(f, k), Lookup(g, k))
  }

  lemma ObjectsReproduce(f: map<string, Json>, g: map<string, Json>)
    requires !DeepEqual(Obj(f), Obj(g))
    ensures DeepReproducible(Obj(f), Obj(g)) <==> KeysReproducible(f, g)
  {
    hide DeepEqual;
    if DeepReproducible(Obj(f), Obj(g)) {
      forall k ensures Reproducible(Lookup(f, k), Lookup(g, k)) {
      }
    } else {
      var k :| k in f && k in g && Container(f[k]) && Container(g[k]) && !DeepReproducible(f[k], g[k]);
      assert !Reproducible(Lookup(f, k), Lookup(g, k));
    }
  }

  lemma ObjectPatched(f: map<string, Json>, g: map<string, Json>, at: seq<string>, order: KeyOrder)
    requires IsOrder(order) && !DeepEqual(Obj(f), Obj(g))
    ensures var r := DeepPatched(Obj(f), Obj(g), at, order);
            r.Obj? && forall k :: Lookup(r.fields, k) == Patched(Lookup(f, k), Lookup(g, k), at + [k], order)
  {
    var all := OwnKeys(Obj(f)) + OwnKeys(Obj(g));
    var keys := order(at, all);
    assert NoDup(keys) && SetOf(keys) == all;
    assert forall k :: k in keys <==> k in SetOf(keys);
    KeysApply(f, g, at, order, keys);
    var r := DeepPatched(Obj(f), Obj(g), at, order);
    assert PatchedOn(r, f, g, at, order, keys);
    hide DeepPatched;
    forall k ensures Lookup(r.fields, k) == Patched(Lookup(f, k), Lookup(g, k), at + [k], order) {
      if k !in keys {
        assert k !in f && k !in g;
        NothingToPatch(at + [k], order);
      }
    }
  }

  lemma NothingToPatch(at: seq<string>, order: KeyOrder)
    ensures Patched(None, None, at, order) == None
  {
  }

  lemma {:induction false} DeepPatchedReaches(from: Json, to: Json, at: seq<string>, order: KeyOrder)
    requires Container(from) && Container(to) && IsOrder(order)
    ensures DeepPatched(from, to, at, order) == to <==> DeepReproducible(from, to)
    decreases from
  {
    if DeepEqual(from, to) || (from.Arr? && to.Arr?) {
    } else if from.Obj? && to.Obj? {
      var f, g := from.fields, to.fields;
      ObjectPatched(f, g, at, order);
      ObjectsReproduce(f, g);
      var r := DeepPatched(from, to, at, order).fields;
      LookupsDecide(r, g);
      hide DeepPatched;
      hide DeepEqual;
      hide DeepReproducible;
      hide Patched;
      forall k ensures Lookup(r, k) == Lookup(g, k) <==> Reproducible(Lookup(f, k), Lookup(g, k)) {
        var u, v := Lookup(f, k), Lookup(g, k);
        if BothContainers(u, v) {
          assert u.value < from;
          DeepPatchedReaches(u.value, v.value, at + [k], order);
          PatchedOfContainers(u, v, at + [k], order);
        } else {
          LeafReaches(u, v, at + [k], order);
        }
      }
    } else {
      StepsKeepKind(from, KeysSteps(from, to, at, order, order(at, OwnKeys(from) + OwnKeys(to))));
    }
  }

  lemma PatchedOfContainers(from: Option<Json>, to: Option<Json>, at: seq<string>, order: KeyOrder)
    requires BothContainers(from, to)
    ensures Patched(from, to, at, order) == Some(DeepPatched(from.value, to.value, at, order))
    ensures Reproducible(from, to) <==> DeepReproducible(from.value, to.value)
  {
  }

  lemma PatchedReaches(from: Option<Json>, to: Option<Json>, at: seq<string>, order: KeyOrder)
    requires IsOrder(order)
    ensures Patched(from, to, at, order) == to <==> Reproducible(from, to)
  {
    if BothContainers(from, to) {
      DeepPatchedReaches(from.value, to.value, at, order);
    } else {
      LeafReaches(from, to, at, order);
    }
  }

  /** Values of the same kinds at every shared path are always reproducible. */
  lemma {:induction false} SameKindsReproduce(from: Json, to: Json)
    requires Container(from) && Container(to) && SameKinds(from, to)
    ensures DeepReproducible(from, to)
    decreases from
  {
    DeepEqualIsEquality(from, to);
    hide DeepEqual;
    if !DeepEqual(from, to) && from.Obj? && to.Obj? {
      var f, g := from.fields, to.fields;
      forall k | k in f && k in g && Container(f[k]) && Container(g[k]) ensures DeepReproducible(f[k], g[k]) {
        SameKindsReproduce(f[k], g[k]);
      }
    }
  }

  /** What the printed operations make of the field they were found for; the other fields stay. */
  lemma OpsPatchField(root: map<string, Json>, key: string, to: Option<Json>, base: string, at: seq<string>,
                      order: KeyOrder)
    requires Segments(base) == [key] && GoodKeysOpt(Lookup(root, key)) && GoodKeysOpt(to) && IsOrder(order)
    ensures ApplyOps(Obj(root), FindOps(Lookup(root, key), to, base, at, order))
         == Obj(Update(root, key, Patched(Lookup(root, key), to, at, order)))
  {
    FindOpsParse(Lookup(root, key), to, base, at, order);
    ChildStep(root, key, to, at, order);
  }

  /** Diff and apply turn one value into the other exactly when they are reproducible. */
  lemma PatchRoundTripIff(root: map<string, Json>, key: string, to: Option<Json>, base: string, at: seq<string>,
                          order: KeyOrder)
    requires Segments(base) == [key] && GoodKeysOpt(Lookup(root, key)) && GoodKeysOpt(to) && IsOrder(order)
    ensures ApplyOps(Obj(root), FindOps(Lookup(root, key), to, base, at, order)) == Obj(Update(root, key, to))
       <==> Reproducible(Lookup(root, key), to)
  {
    hide GoodKeys;
    hide Patched;
    hide FindOps;
    hide ApplyOps;
    OpsPatchField(root, key, to, base, at, order);
    PatchedReaches(Lookup(root, key), to, at, order);
    var p := Patched(Lookup(root, key), to, at, order);
    assert Lookup(Update(root, key, p), key) == p && Lookup(Update(root, key, to), key) == to;
  }

  // ── The operations do not get in each other's way ────────────────────────

  predicate PrefixFree(steps: seq<Step>) {
    forall i, j :: 0 <= i < |steps| && 0 <= j < |steps| && i != j ==> !(steps[i].segs <= steps[j].segs)
  }

  lemma PrependPrefix(pre: seq<string>, a: seq<string>, b: seq<string>)
    ensures pre + a <= pre + b <==> a <= b
  {
    if pre + a <= pre + b {
      assert forall i :: 0 <= i < |a| ==> a[i] == (pre + a)[|pre| + i] == (pre + b)[|pre| + i] == b[i];
    }
  }

  lemma PrependPrefixFree(pre: seq<string>, steps: seq<Step>)
    requires PrefixFree(steps)
    ensures PrefixFree(Prepend(pre, steps))
  {
    var r := Prepend(pre, steps);
    forall i, j | 0 <= i < |r| && 0 <= j < |r| && i != j ensures !(r[i].segs <= r[j].segs) {
      PrependPrefix(pre, steps[i].segs, steps[j].segs);
    }
  }

  predicate HeadsIn(steps: seq<Step>, keys: seq<string>) {
    forall i :: 0 <= i < |steps| ==> steps[i].segs != [] && steps[i].segs[0] in keys
  }

  lemma ConcatPrefixFree(a: seq<Step>, b: seq<Step>, keys: seq<string>, key: string)
    requires PrefixFree(a) && PrefixFree(b) && HeadsIn(a, keys) && HeadsIn(b, [key]) && key !in keys
    ensures PrefixFree(a + b) && HeadsIn(a + b, keys + [key])
  {
  }

  lemma {:induction false} DeepPrefixFree(from: Json, to: Json, at: seq<string>, order: KeyOrder)
    requires Container(from) && Container(to) && IsOrder(order)
    ensures PrefixFree(DeepSteps(from, to, at, order))
    decreases from, 1, 0
  {
    if !DeepEqual(from, to) && !(from.Arr? && to.Arr?) {
      KeysPrefixFree(from, to, at, order, order(at, OwnKeys(from) + OwnKeys(to)));
    }
  }

  lemma {:induction false} KeysPrefixFree(from: Json, to: Json, at: seq<string>, order: KeyOrder, keys: seq<string>)
    requires Container(from) && Container(to) && IsOrder(order) && NoDup(keys)
    ensures PrefixFree(KeysSteps(from, to, at, order, keys)) && HeadsIn(KeysSteps(from, to, at, order, keys), keys)
    decreases from, 0, |keys|
  {
    if keys != [] {
      var n := |keys| - 1;
      var key := keys[n];
      var f, t := Property(from, key), Property(to, key);
      assert keys == keys[..n] + [key];
      assert key !in keys[..n];
      KeysPrefixFree(from, to, at, order, keys[..n]);
      var steps := FindSteps(f, t, at + [key], order);
      assert PrefixFree(steps) by {
        if BothContainers(f, t) {
          DeepPrefixFree(f.value, t.value, at + [key], order);
        }
      }
      PrependPrefixFree([key], steps);
      KeysSnoc(from, to, at, order, keys[..n], key);
      var before := KeysSteps(from, to, at, order, keys[..n]);
      hide KeysSteps;
      hide FindSteps;
      hide PrefixFree;
      hide IsOrder;
      ConcatPrefixFree(before, Prepend([key], steps), keys[..n], key);
    }
  }

  /** No operation's path is at or below another's. */
  lemma OpsArePrefixFree(from: Option<Json>, to: Option<Json>, base: string, at: seq<string>, order: KeyOrder)
    requires GoodKeysOpt(from) && GoodKeysOpt(to) && IsOrder(order)
    ensures PrefixFree(StepsOf(FindOps(from, to, base, at, order)))
  {
    FindOpsParse(from, to, base, at, order);
    if BothContainers(from, to) {
      DeepPrefixFree(from.value, to.value, at, order);
    }
    PrependPrefixFree(Segments(base), FindSteps(from, to, at, order));
  }

  // ── What each operation says ─────────────────────────────────────────────

  /** What a value holds at a path of keys. */
  function ValueAt(j: Option<Json>, segs: seq<string>): Option<Json>
    decreases |segs|
  {
    if segs == [] then j
    else if j.Some? && Container(j.value) then ValueAt(Property(j.value, segs[0]), segs[1..])
    else None
  }

  /** Added where only the target has a value, removed where only the source has, replaced where they differ. */
  ghost predicate Says(from: Option<Json>, to: Option<Json>, step: Step) {
    var u, v := ValueAt(from, step.segs), ValueAt(to, step.segs);
    match step.action
    case Add(value) => u.None? && v == Some(value)
    case Remove => u.Some? && v.None?
    case Replace(value) => u.Some? && v == Some(value) && !DeepEqual(u.value, value)
  }

  ghost predicate AllSay(from: Option<Json>, to: Option<Json>, steps: seq<Step>) {
    forall i :: 0 <= i < |steps| ==> Says(from, to, steps[i])
  }

  lemma LeafSays(from: Option<Json>, to: Option<Json>)
    ensures AllSay(from, to, LeafSteps(from, to))
  {
    hide DeepEqual;
  }

  lemma ValueBelow(j: Json, key: string, segs: seq<string>)
    requires Container(j)
    ensures ValueAt(Some(j), [key] + segs) == ValueAt(Property(j, key), segs)
  {
    assert ([key] + segs)[1..] == segs;
    hide Property;
  }

  lemma PrependSays(from: Json, to: Json, key: string, steps: seq<Step>)
    requires Container(from) && Container(to) && AllSay(Property(from, key), Property(to, key), steps)
    ensures AllSay(Some(from), Some(to), Prepend([key], steps))
  {
    hide DeepEqual;
    hide Property;
    hide ValueAt;
    forall i | 0 <= i < |steps| ensures Says(Some(from), Some(to), Prepend([key], steps)[i]) {
      assert Says(Property(from, key), Property(to, key), steps[i]);
      ValueBelow(from, key, steps[i].segs);
      ValueBelow(to, key, steps[i].segs);
    }
  }

  lemma SayConcat(from: Option<Json>, to: Option<Json>, x: seq<Step>, y: seq<Step>)
    requires AllSay(from, to, x) && AllSay(from, to, y)
    ensures AllSay(from, to, x + y)
  {
    hide Says;
  }

  lemma {:induction false} DeepSays(from: Json, to: Json, at: seq<string>, order: KeyOrder)
    requires Container(from) && Container(to)
    ensures AllSay(Some(from), Some(to), DeepSteps(from, to, at, order))
    decreases from, 1, 0
  {
    if !DeepEqual(from, to) && !(from.Arr? && to.Arr?) {
      KeysSay(from, to, at, order, order(at, OwnKeys(from) + OwnKeys(to)));
      hide KeysSteps;
      hide AllSay;
    }
  }

  lemma KeysSayOneMore(from: Json, to: Json, at: seq<string>, order: KeyOrder, front: seq<string>, key: string)
    requires Container(from) && Container(to) && AllSay(Some(from), Some(to), KeysSteps(from, to, at, order, front))
    requires AllSay(Property(from, key), Property(to, key),
                    FindSteps(Property(from, key), Property(to, key), at + [key], order))
    ensures AllSay(Some(from), Some(to), KeysSteps(from, to, at, order, front + [key]))
  {
    var steps := FindSteps(Property(from, key), Property(to, key), at + [key], order);
    hide *;
    KeysSnoc(from, to, at, order, front, key);
    PrependSays(from, to, key, steps);
    SayConcat(Some(from), Some(to), KeysSteps(from, to, at, order, front), Prepend([key], steps));
  }

  lemma NoKeysSay(from: Json, to: Json, at: seq<string>, order: KeyOrder)
    requires Container(from) && Container(to)
    ensures AllSay(Some(from), Some(to), KeysSteps(from, to, at, order, []))
  {
  }

  lemma {:induction false} KeysSay(from: Json, to: Json, at: seq<string>, order: KeyOrder, keys: seq<string>)
    requires Container(from) && Container(to)
    ensures AllSay(Some(from), Some(to), KeysSteps(from, to, at, order, keys))
    decreases from, 0, |keys|
  {
    hide *;
    if keys == [] {
      NoKeysSay(from, to, at, order);
    } else {
      var n := |keys| - 1;
      assert keys == keys[..n] + [keys[n]];
      KeysSay(from, to, at, order, keys[..n]);
      FindSayBelow(from, to, at, order, keys[n]);
      KeysSayOneMore(from, to, at, order, keys[..n], keys[n]);
    }
  }

  lemma {:induction false} FindSayBelow(from: Json, to: Json, at: seq<string>, order: KeyOrder, key: string)
    requires Container(from) && Container(to)
    ensures AllSay(Property(from, key), Property(to, key),
                   FindSteps(Property(from, key), Property(to, key), at + [key], order))
    decreases from, 0, 0
  {
    var f, t := Property(from, key), Property(to, key);
    if BothContainers(f, t) {
      DeepSays(f.value, t.value, at + [key], order);
    } else {
      LeafSays(f, t);
    }
  }

  /**
   * The operations found say what differs, and no more: each adds what only the target has, removes what
   * only the source has, or replaces a value that is not deeply equal, by the target's.
   */
  lemma FindOpsSay(from: Option<Json>, to: Option<Json>, base: string, at: seq<string>, order: KeyOrder)
    requires GoodKeysOpt(from) && GoodKeysOpt(to) && IsOrder(order)
    ensures StepsOf(FindOps(from, to, base, at, order)) == Prepend(Segments(base), FindSteps(from, to, at, order))
    ensures forall i :: 0 <= i < |FindSteps(from, to, at, order)| ==> Says(from, to, FindSteps(from, to, at, order)[i])
  {
    FindOpsParse(from, to, base, at, order);
    if BothContainers(from, to) {
      DeepSays(from.value, to.value, at, order);
    } else {
      LeafSays(from, to);
    }
    hide Says;
  }

  // ── Keys that cannot be printed ──────────────────────────────────────────

  predicate Scalar(j: Json) {
    !Container(j)
  }

  lemma ReplaceOp(u: Json, v: Json, key: string, base: string, at: seq<string>, order: KeyOrder)
    requires Scalar(u) && Scalar(v) && u != v && IsOrder(order)
    ensures FindOps(Some(Obj(map[key := u])), Some(Obj(map[key := v])), base, at, order)
         == [Op(base + "/" + key, Replace(v))]
  {
    var f, g := Obj(map[key := u]), Obj(map[key := v]);
    assert Own(f, key) == u && Property(g, key) == Some(v);
    assert !DeepEqual(f, g) by {
      assert key in OwnKeys(f);
    }
    hide DeepEqual;
    var keys := order(at, OwnKeys(f) + OwnKeys(g));
    assert SetOf(keys) == {key};
    NoDupSize(keys);
    assert keys[0] in SetOf(keys);
    assert keys == [key];
    KeysOpsOfOne(f, g, base, at, order, key);
    assert !DeepEqual(u, v) by { DeepEqualOfScalars(u, v); }
  }

  lemma DeepEqualOfScalars(u: Json, v: Json)
    requires Scalar(u) && Scalar(v)
    ensures DeepEqual(u, v) <==> u == v
  {
  }

  lemma KeysOpsOfOne(from: Json, to: Json, base: string, at: seq<string>, order: KeyOrder, key: string)
    requires Container(from) && Container(to)
    ensures KeysOps(from, to, base, at, order, [key])
         == FindOps(Property(from, key), Property(to, key), base + "/" + key, at + [key], order)
  {
    assert [key][..0] == [];
  }

  lemma FieldPath(field: string)
    requires GoodKey(field)
    ensures Segments("/" + field) == [field]
  {
    assert "/" + field == "" + "/" + field;
    SegmentsOfChild("", field);
  }

  lemma SlashPath(field: string, a: string, b: string)
    requires GoodKey(field) && GoodKey(a) && GoodKey(b)
    ensures Segments("/" + field + "/" + (a + "/" + b)) == [field, a, b]
  {
    hide Segments;
    var base := "/" + field;
    FieldPath(field);
    assert base + "/" + (a + "/" + b) == (base + "/" + a) + "/" + b;
    SegmentsOfChild(base, a);
    SegmentsOfChild(base + "/" + a, b);
  }

  lemma WalkMisses(root: map<string, Json>, field: string, a: string, b: string, action: Action)
    requires field in root && root[field].Obj? && a !in root[field].fields
    ensures ApplyAt(Obj(root), [field, a, b], action) == Obj(root)
  {
    assert [field, a, b][1..] == [a, b];
    assert ApplyAt(root[field], [a, b], action) == root[field];
    assert root[field := root[field]] == root;
  }

  /** A key with a slash: the path leads elsewhere, and the change is lost. */
  lemma SlashKeyIsLost(u: Json, v: Json, a: string, b: string, field: string, at: seq<string>, order: KeyOrder)
    requires Scalar(u) && Scalar(v) && u != v && GoodKey(a) && GoodKey(b) && GoodKey(field) && IsOrder(order)
    ensures var root := map[field := Obj(map[a + "/" + b := u])];
            ApplyOps(Obj(root), FindOps(Lookup(root, field), Some(Obj(map[a + "/" + b := v])), "/" + field, at, order))
            == Obj(root)
  {
    var key := a + "/" + b;
    var root := map[field := Obj(map[key := u])];
    ReplaceOp(u, v, key, "/" + field, at, order);
    SlashPath(field, a, b);
    assert key[|a|] == '/';
    WalkMisses(root, field, a, b, Replace(v));
    hide FindOps;
    hide Segments;
    hide ApplyAt;
    hide ApplySteps;
    var step := Step([field, a, b], Replace(v));
    assert StepsOf([Op("/" + field + "/" + key, Replace(v))]) == [step];
    ApplyOne(Obj(root), step);
  }

  lemma EmptyPath(field: string)
    requires GoodKey(field)
    ensures Segments("/" + field + "/" + "") == [field]
  {
    FieldPath(field);
    SegmentsAppend("/" + field, "");
    SegmentsOfOne("");
  }

  /** An empty key: the path is its parent's, and the parent itself is overwritten. */
  lemma EmptyKeyOverwritesParent(u: Json, v: Json, field: string, at: seq<string>, order: KeyOrder)
    requires Scalar(u) && Scalar(v) && u != v && GoodKey(field) && IsOrder(order)
    ensures ApplyOps(Obj(map[field := Obj(map["" := u])]),
                     FindOps(Some(Obj(map["" := u])), Some(Obj(map["" := v])), "/" + field, at, order))
         == Obj(map[field := v])
  {
    var root := map[field := Obj(map["" := u])];
    ReplaceOp(u, v, "", "/" + field, at, order);
    EmptyPath(field);
    hide FindOps;
    hide Segments;
    hide ApplySteps;
    hide GoodKey;
    var step := Step([field], Replace(v));
    var ops := [Op("/" + field + "/" + "", Replace(v))];
    assert StepsOf(ops) == [step];
    hide StepOf;
    assert root[field := v] == map[field := v];
    OverwriteField(root, field, v);
  }

  lemma OverwriteField(root: map<string, Json>, field: string, v: Json)
    requires field in root && GoodKey(field)
    ensures ApplySteps(Obj(root), [Step([field], Replace(v))]) == Obj(root[field := v])
  {
    hide ApplySteps;
    ApplyOne(Obj(root), Step([field], Replace(v)));
  }
}
