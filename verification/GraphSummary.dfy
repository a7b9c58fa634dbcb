/** The node summary of a diff against its patches: each is empty exactly when the other is. */
module GraphSummary {
  import opened Seqs
  import opened Json
  import opened GraphDiff
  import opened Sorting
  import opened GraphContract

  function Ids(nodes: seq<Json>): (ids: seq<string>)
    ensures |ids| == |nodes|
    ensures forall i :: 0 <= i < |ids| ==> ids[i] == Id(nodes[i])
  {
    seq(|nodes|, i requires 0 <= i < |nodes| => Id(nodes[i]))
  }

  predicate HasId(n: Json) {
    n.Obj? && "id" in n.fields && n.fields["id"].Str?
  }

  /** What validateGraphContract asks of the nodes: every id there, none twice. */
  ghost predicate WellNamed(nodes: seq<Json>) {
    NoDup(Ids(nodes)) && forall n :: n in nodes ==> HasId(n)
  }

  /** localeCompare gives 0 for equal strings only. */
  ghost predicate Antisymmetric(leq: Leq) {
    forall a, b :: leq(a, b) && leq(b, a) ==> a == b
  }

  // ── The summary lists ────────────────────────────────────────────────────

  lemma {:induction false} IdsOutsideMembers(nodes: seq<Json>, ids: set<string>)
    ensures forall x :: x in IdsOutside(nodes, ids) <==> x in Ids(nodes) && x !in ids
  {
    if nodes != [] {
      var n := |nodes| - 1;
      IdsOutsideMembers(nodes[..n], ids);
      assert Ids(nodes) == Ids(nodes[..n]) + [Id(nodes[n])];
    }
  }

  lemma {:induction false} ModifiedMembers(from: seq<Json>, to: seq<Json>)
    ensures ModifiedIds(from, to) == [] <==> forall i :: 0 <= i < |to| ==> !IsModified(from, to[i])
  {
    if to != [] {
      var n := |to| - 1;
      ModifiedMembers(from, to[..n]);
      hide IsModified;
      assert forall i :: 0 <= i < n ==> to[i] == to[..n][i];
    }
  }

  lemma FindNodeIs(nodes: seq<Json>, n: Json)
    requires NoDup(Ids(nodes)) && n in nodes
    ensures FindNode(nodes, Id(n)) == Some(n)
  {
    var i :| 0 <= i < |nodes| && nodes[i] == n;
    assert Id(nodes[i]) in IdSet(nodes);
    var m := FindNode(nodes, Id(n)).value;
    var j :| 0 <= j < |nodes| && nodes[j] == m;
    assert Ids(nodes)[i] == Ids(nodes)[j];
  }

  lemma DeepEqualIds(a: Json, b: Json)
    requires HasId(a) && HasId(b) && DeepEqual(a, b)
    ensures Id(a) == Id(b)
  {
    assert "id" in OwnKeys(a);
    assert DeepEqual(Own(a, "id"), Property(b, "id").value);
  }

  // ── Sorted lists of distinct ids ─────────────────────────────────────────

  lemma {:induction false} CountIsMultiplicity<T>(s: seq<T>, x: T)
    ensures multiset(s)[x] == Count(s, x)
  {
    if s != [] {
      CountIsMultiplicity(s[..|s| - 1], x);
      assert s == s[..|s| - 1] + [s[|s| - 1]];
    }
  }

  lemma NoDupCount<T>(s: seq<T>)
    requires forall x :: Count(s, x) <= 1
    ensures NoDup(s)
  {
    forall i, j | 0 <= i < j < |s| ensures s[i] != s[j] {
      var x := s[i];
      assert s == s[..j] + s[j..];
      CountConcat(s[..j], s[j..], x);
      CountZero(s[..j], x);
      CountZero(s[j..], x);
      assert s[..j][i] == x && s[j..][0] == s[j];
    }
  }

  lemma {:induction false} CountNoDup<T>(s: seq<T>, x: T)
    requires NoDup(s)
    ensures Count(s, x) <= 1
  {
    if s != [] {
      var n := |s| - 1;
      CountNoDup(s[..n], x);
      CountZero(s[..n], x);
    }
  }

  lemma PermutationKeeps<T>(s: seq<T>, r: seq<T>)
    requires multiset(s) == multiset(r) && NoDup(s)
    ensures NoDup(r) && forall x :: x in r <==> x in s
  {
    assert forall x :: x in r <==> x in multiset(r);
    assert forall x :: x in s <==> x in multiset(s);
    forall x ensures Count(r, x) <= 1 {
      CountNoDup(s, x);
      CountIsMultiplicity(s, x);
      CountIsMultiplicity(r, x);
    }
    NoDupCount(r);
  }

  /** Sorting permutes: no node is lost, doubled or invented. */
  lemma SortKeeps(nodes: seq<Json>, leq: Leq)
    requires WellNamed(nodes)
    ensures forall n :: n in SortBy(nodes, Id, leq) <==> n in nodes
    ensures WellNamed(SortBy(nodes, Id, leq))
  {
    var sorted := SortBy(nodes, Id, leq);
    SortMembers(nodes, Id, leq);
    hide SortBy;
    assert NoDup(nodes) by {
      assert forall i :: 0 <= i < |nodes| ==> Ids(nodes)[i] == Id(nodes[i]);
    }
    PermutationKeeps(nodes, sorted);
    forall i, j | 0 <= i < j < |sorted| ensures Ids(sorted)[i] != Ids(sorted)[j] {
      assert sorted[i] in nodes && sorted[j] in nodes;
      FindNodeIs(nodes, sorted[i]);
      FindNodeIs(nodes, sorted[j]);
    }
  }

  ghost predicate SortedIds(ids: seq<string>, leq: Leq) {
    NoDup(ids) && forall i, j :: 0 <= i < j < |ids| ==> leq(ids[i], ids[j])
  }

  lemma LastIsSame(a: seq<string>, b: seq<string>, leq: Leq)
    requires SortedIds(a, leq) && SortedIds(b, leq) && Antisymmetric(leq)
    requires a != [] && b != [] && forall x :: x in a <==> x in b
    ensures a[|a| - 1] == b[|b| - 1]
  {
    var x, y := a[|a| - 1], b[|b| - 1];
    assert x in b && y in a;
    var i :| 0 <= i < |b| && b[i] == x;
    var j :| 0 <= j < |a| && a[j] == y;
    assert i == |b| - 1 || leq(x, y);
    assert j == |a| - 1 || leq(y, x);
  }

  lemma DropLast(a: seq<string>, leq: Leq)
    requires a != [] && SortedIds(a, leq)
    ensures SortedIds(a[..|a| - 1], leq)
    ensures forall x :: x in a[..|a| - 1] <==> x in a && x != a[|a| - 1]
  {
    assert a == a[..|a| - 1] + [a[|a| - 1]];
  }

  /** Two sorted lists of the same distinct ids are the same list. */
  lemma {:induction false} SortedUnique(a: seq<string>, b: seq<string>, leq: Leq)
    requires SortedIds(a, leq) && SortedIds(b, leq) && Antisymmetric(leq)
    requires forall x :: x in a <==> x in b
    ensures a == b
    decreases |a|
  {
    EmptyIffNoMembers(a);
    EmptyIffNoMembers(b);
    if a != [] {
      LastIsSame(a, b, leq);
      DropLast(a, leq);
      DropLast(b, leq);
      hide SortedIds;
      hide Antisymmetric;
      var m, n := |a| - 1, |b| - 1;
      forall x ensures x in a[..m] <==> x in b[..n] {
        assert x in a[..m] <==> x in a && x != a[m];
        assert x in b[..n] <==> x in b && x != b[n];
      }
      SortedUnique(a[..m], b[..n], leq);
      assert a == a[..m] + [a[m]] && b == b[..n] + [b[n]];
    }
  }

  // ── The two descriptions agree ───────────────────────────────────────────

  ghost predicate Unchanged(from: seq<Json>, to: seq<Json>) {
    && (forall x :: x in Ids(from) <==> x in Ids(to))
    && (forall i :: 0 <= i < |to| ==> !IsModified(from, to[i]))
  }

  lemma SummaryEmptyIff(from: seq<Json>, to: seq<Json>)
    ensures IdsOutside(to, IdSet(from)) == [] && IdsOutside(from, IdSet(to)) == [] && ModifiedIds(from, to) == []
       <==> Unchanged(from, to)
  {
    IdsOutsideMembers(to, IdSet(from));
    IdsOutsideMembers(from, IdSet(to));
    EmptyIffNoMembers(IdsOutside(to, IdSet(from)));
    EmptyIffNoMembers(IdsOutside(from, IdSet(to)));
    ModifiedMembers(from, to);
    IdSetIs(from);
    IdSetIs(to);
    hide IdsOutside;
    hide ModifiedIds;
    hide IsModified;
  }

  lemma IdSetIs(nodes: seq<Json>)
    ensures forall x :: x in IdSet(nodes) <==> x in Ids(nodes)
  {
    forall x | x in IdSet(nodes) ensures x in Ids(nodes) {
      var i :| 0 <= i < |nodes| && Id(nodes[i]) == x;
      assert Ids(nodes)[i] == x;
    }
    forall x | x in Ids(nodes) ensures x in IdSet(nodes) {
      var i :| 0 <= i < |nodes| && Ids(nodes)[i] == x;
      assert Id(nodes[i]) == x;
    }
  }

  /** a and b are the two node lists, s and t the same in sorted order. */
  ghost predicate Sortings(a: seq<Json>, b: seq<Json>, s: seq<Json>, t: seq<Json>) {
    && WellNamed(a) && WellNamed(b) && WellNamed(s) && WellNamed(t)
    && (forall n :: n in s <==> n in a)
    && (forall n :: n in t <==> n in b)
  }

  lemma IdsFollow(a: seq<Json>, s: seq<Json>)
    requires forall n :: n in s <==> n in a
    ensures forall x :: x in Ids(s) <==> x in Ids(a)
  {
    forall x | x in Ids(s) ensures x in Ids(a) {
      var i :| 0 <= i < |s| && Ids(s)[i] == x;
      assert s[i] in a;
      var j :| 0 <= j < |a| && a[j] == s[i];
      assert Ids(a)[j] == x;
    }
    forall x | x in Ids(a) ensures x in Ids(s) {
      var i :| 0 <= i < |a| && Ids(a)[i] == x;
      assert a[i] in s;
      var j :| 0 <= j < |s| && s[j] == a[i];
      assert Ids(s)[j] == x;
    }
  }

  lemma EqualMeansUnchanged(a: seq<Json>, b: seq<Json>, s: seq<Json>, t: seq<Json>)
    requires Sortings(a, b, s, t) && |s| == |t| && forall i :: 0 <= i < |s| ==> DeepEqual(s[i], t[i])
    ensures Unchanged(a, b)
  {
    IdsFollow(a, s);
    IdsFollow(b, t);
    forall i | 0 <= i < |s| ensures Ids(s)[i] == Ids(t)[i] {
      DeepEqualIds(s[i], t[i]);
    }
    assert Ids(s) == Ids(t);
    hide DeepEqual;
    forall k | 0 <= k < |b| ensures !IsModified(a, b[k]) {
      assert b[k] in t;
      var i :| 0 <= i < |t| && t[i] == b[k];
      assert s[i] in a;
      FindNodeIs(a, s[i]);
    }
  }

  lemma UnchangedMeansEqual(a: seq<Json>, b: seq<Json>, s: seq<Json>, t: seq<Json>, leq: Leq)
    requires Sortings(a, b, s, t) && Unchanged(a, b) && Antisymmetric(leq)
    requires SortedBy(s, Id, leq) && SortedBy(t, Id, leq)
    ensures |s| == |t| && forall i :: 0 <= i < |s| ==> DeepEqual(s[i], t[i])
  {
    IdsFollow(a, s);
    IdsFollow(b, t);
    hide DeepEqual;
    assert SortedIds(Ids(s), leq) && SortedIds(Ids(t), leq);
    SortedUnique(Ids(s), Ids(t), leq);
    forall i | 0 <= i < |s| ensures DeepEqual(s[i], t[i]) {
      assert Ids(s)[i] == Ids(t)[i];
      assert t[i] in b && s[i] in a;
      var k :| 0 <= k < |b| && b[k] == t[i];
      assert !IsModified(a, b[k]);
      FindNodeIs(a, s[i]);
    }
  }

  /** No node operation is emitted exactly when nothing is added, removed or modified. */
  lemma SummaryMatchesPatch(from: Json, to: Json, leq: Leq, order: KeyOrder)
    requires IsGraph(from) && IsGraph(to) && TotalPreorder(leq) && Antisymmetric(leq)
    requires WellNamed(Nodes(from)) && WellNamed(Nodes(to))
    ensures var d := ComputeDiff(from, to, leq, order);
            NodeOps(from, to, leq, order) == [] <==> d.added == [] && d.removed == [] && d.modified == []
  {
    var a, b := Nodes(from), Nodes(to);
    var s, t := SortedNodes(from, leq), SortedNodes(to, leq);
    SortKeeps(a, leq);
    SortKeeps(b, leq);
    SortSorted(a, Id, leq);
    SortSorted(b, Id, leq);
    SummaryEmptyIff(a, b);
    NodeOpsEmpty(from, to, leq, order);
    hide DeepEqual;
    hide NodeOps;
    if |s| == |t| && forall i :: 0 <= i < |s| ==> DeepEqual(s[i], t[i]) {
      EqualMeansUnchanged(a, b, s, t);
    }
    if Unchanged(a, b) {
      UnchangedMeansEqual(a, b, s, t, leq);
    }
  }

  lemma NodeOpsEmpty(from: Json, to: Json, leq: Leq, order: KeyOrder)
    requires IsGraph(from) && IsGraph(to)
    ensures var s, t := SortedNodes(from, leq), SortedNodes(to, leq);
            NodeOps(from, to, leq, order) == [] <==> |s| == |t| && forall i :: 0 <= i < |s| ==> DeepEqual(s[i], t[i])
  {
  }

  // ── What the lists hold ──────────────────────────────────────────────────

  lemma {:induction false} IdsOutsideInOrder(nodes: seq<Json>, ids: set<string>, keep: set<string>)
    requires forall i :: 0 <= i < |nodes| ==> (Id(nodes[i]) in keep <==> Id(nodes[i]) !in ids)
    ensures IdsOutside(nodes, ids) == Restrict(Ids(nodes), keep)
  {
    if nodes != [] {
      var n := |nodes| - 1;
      IdsOutsideInOrder(nodes[..n], ids, keep);
      assert Ids(nodes)[..n] == Ids(nodes[..n]);
    }
  }

  /** The first node with n's id differs from n. */
  ghost predicate DiffersFromFirst(from: seq<Json>, n: Json) {
    exists k :: 0 <= k < |from| && Id(from[k]) == Id(n) && !DeepEqual(from[k], n)
             && forall j :: 0 <= j < k ==> Id(from[j]) != Id(n)
  }

  lemma {:induction false} FindFirst(nodes: seq<Json>, id: string) returns (k: nat)
    requires FindNode(nodes, id).Some?
    ensures k < |nodes| && FindNode(nodes, id) == Some(nodes[k]) && Id(nodes[k]) == id
    ensures forall j :: 0 <= j < k ==> Id(nodes[j]) != id
  {
    if Id(nodes[0]) == id {
      k := 0;
    } else {
      var m := FindFirst(nodes[1..], id);
      k := m + 1;
      assert forall j :: 0 < j < k ==> nodes[j] == nodes[1..][j - 1];
    }
  }

  lemma ModifiedMeans(from: seq<Json>, n: Json)
    ensures IsModified(from, n) <==> DiffersFromFirst(from, n)
  {
    hide DeepEqual;
    if FindNode(from, Id(n)).Some? {
      var k := FindFirst(from, Id(n));
    }
  }

  lemma {:induction false} ModifiedInOrder(from: seq<Json>, to: seq<Json>, keep: set<Json>)
    requires forall i :: 0 <= i < |to| ==> (to[i] in keep <==> DiffersFromFirst(from, to[i]))
    ensures ModifiedIds(from, to) == Ids(Restrict(to, keep))
  {
    if to != [] {
      var n := |to| - 1;
      ModifiedMeans(from, to[n]);
      hide IsModified;
      hide DiffersFromFirst;
      assert forall i :: 0 <= i < n ==> to[..n][i] == to[i];
      ModifiedInOrder(from, to[..n], keep);
    }
  }

  /** Not the same edges, one by one, once both lists are sorted by source and target. */
  ghost predicate EdgesDiffer(e: seq<Json>, f: seq<Json>) {
    |e| != |f| || exists i :: 0 <= i < |e| && !DeepEqual(e[i], f[i])
  }

  lemma ArraysEqualIff(e: seq<Json>, f: seq<Json>)
    ensures DeepEqual(Arr(e), Arr(f)) <==> !EdgesDiffer(e, f)
  {
  }

  /**
   * What a diff says of nodes: added are the ids of the target's nodes that are no ids of the source's,
   * removed the other way round, modified those whose first source node of that id is not deeply equal,
   * each in the order of its list; the edges changed if and only if their sorted lists differ.
   */
  lemma SummaryLists(from: Json, to: Json, leq: Leq, order: KeyOrder)
    requires IsGraph(from) && IsGraph(to)
    ensures var d, a, b := ComputeDiff(from, to, leq, order), Nodes(from), Nodes(to);
            && d.added == Restrict(Ids(b), SetOf(Ids(b)) - SetOf(Ids(a)))
            && d.removed == Restrict(Ids(a), SetOf(Ids(a)) - SetOf(Ids(b)))
            && d.modified == Ids(Restrict(b, set n | n in b && DiffersFromFirst(a, n)))
            && (d.edgesChanged <==> EdgesDiffer(SortBy(Edges(from), EdgeKey, leq), SortBy(Edges(to), EdgeKey, leq)))
            && d.fromVersion == from.fields["version"] && d.toVersion == to.fields["version"]
  {
    var a, b := Nodes(from), Nodes(to);
    IdSetIs(a);
    IdSetIs(b);
    ArraysEqualIff(SortBy(Edges(from), EdgeKey, leq), SortBy(Edges(to), EdgeKey, leq));
    hide DeepEqual;
    hide EdgesDiffer;
    hide NodeOps;
    hide EdgeOps;
    hide MetaOps;
    ListsInOrder(a, b);
  }

  lemma ListsInOrder(a: seq<Json>, b: seq<Json>)
    ensures IdsOutside(b, IdSet(a)) == Restrict(Ids(b), SetOf(Ids(b)) - SetOf(Ids(a)))
    ensures IdsOutside(a, IdSet(b)) == Restrict(Ids(a), SetOf(Ids(a)) - SetOf(Ids(b)))
    ensures ModifiedIds(a, b) == Ids(Restrict(b, set n | n in b && DiffersFromFirst(a, n)))
  {
    OutsideMeans(b, a);
    OutsideMeans(a, b);
    hide DiffersFromFirst;
    ModifiedInOrder(a, b, set n | n in b && DiffersFromFirst(a, n));
  }

  lemma OutsideMeans(nodes: seq<Json>, others: seq<Json>)
    ensures IdsOutside(nodes, IdSet(others)) == Restrict(Ids(nodes), SetOf(Ids(nodes)) - SetOf(Ids(others)))
  {
    var keep := SetOf(Ids(nodes)) - SetOf(Ids(others));
    IdSetIs(others);
    assert forall i :: 0 <= i < |nodes| ==> Ids(nodes)[i] in Ids(nodes);
    IdsOutsideInOrder(nodes, IdSet(others), keep);
  }
}
