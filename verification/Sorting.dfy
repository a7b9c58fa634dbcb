/** The stable sort both graph packages use to put nodes and edges in a canonical order. */
module Sorting {

  type Leq = (string, string) -> bool

  /** What localeCompare(a, b) <= 0 is assumed to be. */
  ghost predicate TotalPreorder(leq: Leq) {
    && (forall a, b :: leq(a, b) || leq(b, a))
    && (forall a, b, c :: leq(a, b) && leq(b, c) ==> leq(a, c))
  }

  ghost predicate SortedBy<T>(s: seq<T>, key: T -> string, leq: Leq) {
    forall i, j :: 0 <= i < j < |s| ==> leq(key(s[i]), key(s[j]))
  }

  /** x goes behind everything that is not greater. */
  function Insert<T>(s: seq<T>, x: T, key: T -> string, leq: Leq): seq<T> {
    if s == [] then [x]
    else
      var last := s[|s| - 1];
      if leq(key(last), key(x)) then s + [x] else Insert(s[..|s| - 1], x, key, leq) + [last]
  }

  function SortBy<T>(s: seq<T>, key: T -> string, leq: Leq): seq<T> {
    if s == [] then [] else Insert(SortBy(s[..|s| - 1], key, leq), s[|s| - 1], key, leq)
  }

  lemma {:induction false} InsertMembers<T>(s: seq<T>, x: T, key: T -> string, leq: Leq)
    ensures multiset(Insert(s, x, key, leq)) == multiset(s) + multiset{x}
  {
    if s != [] {
      InsertMembers(s[..|s| - 1], x, key, leq);
      assert s == s[..|s| - 1] + [s[|s| - 1]];
    }
  }

  lemma SnocMembers<T>(s: seq<T>)
    requires s != []
    ensures multiset(s) == multiset(s[..|s| - 1]) + multiset{s[|s| - 1]}
  {
    assert s == s[..|s| - 1] + [s[|s| - 1]];
  }

  lemma {:induction false} SortMembers<T>(s: seq<T>, key: T -> string, leq: Leq)
    ensures multiset(SortBy(s, key, leq)) == multiset(s)
  {
    if s != [] {
      var front, x := s[..|s| - 1], s[|s| - 1];
      var sorted := SortBy(front, key, leq);
      assert SortBy(s, key, leq) == Insert(sorted, x, key, leq);
      SortMembers(front, key, leq);
      InsertMembers(sorted, x, key, leq);
      hide *;
      SnocMembers(s);
    }
  }

  lemma {:induction false} InsertSorted<T>(s: seq<T>, x: T, key: T -> string, leq: Leq)
    requires TotalPreorder(leq) && SortedBy(s, key, leq)
    ensures SortedBy(Insert(s, x, key, leq), key, leq)
  {
    if s != [] {
      var n := |s| - 1;
      var last := s[n];
      if leq(key(last), key(x)) {
        assert forall i :: 0 <= i < n ==> leq(key(s[i]), key(last));
      } else {
        var front := Insert(s[..n], x, key, leq);
        InsertSorted(s[..n], x, key, leq);
        InsertMembers(s[..n], x, key, leq);
        forall i | 0 <= i < |front| ensures leq(key(front[i]), key(last)) {
          assert front[i] in multiset(front);
          assert front[i] in s[..n] || front[i] == x;
        }
      }
    }
  }

  lemma {:induction false} SortSorted<T>(s: seq<T>, key: T -> string, leq: Leq)
    requires TotalPreorder(leq)
    ensures SortedBy(SortBy(s, key, leq), key, leq)
  {
    if s != [] {
      SortSorted(s[..|s| - 1], key, leq);
      InsertSorted(SortBy(s[..|s| - 1], key, leq), s[|s| - 1], key, leq);
    }
  }

  /** Sorting what is sorted changes nothing: the sort is stable. */
  lemma {:induction false} SortOfSorted<T>(s: seq<T>, key: T -> string, leq: Leq)
    requires SortedBy(s, key, leq)
    ensures SortBy(s, key, leq) == s
  {
    if s != [] {
      var n := |s| - 1;
      SortOfSorted(s[..n], key, leq);
      assert s == s[..n] + [s[n]];
      assert n > 0 ==> leq(key(s[n - 1]), key(s[n]));
    }
  }

  lemma SortTwice<T>(s: seq<T>, key: T -> string, leq: Leq)
    requires TotalPreorder(leq)
    ensures SortBy(SortBy(s, key, leq), key, leq) == SortBy(s, key, leq)
  {
    SortSorted(s, key, leq);
    SortOfSorted(SortBy(s, key, leq), key, leq);
  }

  function Map<T, U>(s: seq<T>, f: T -> U): (r: seq<U>)
    ensures |r| == |s| && forall i :: 0 <= i < |s| ==> r[i] == f(s[i])
  {
    seq(|s|, i requires 0 <= i < |s| => f(s[i]))
  }

  lemma MapAppend<T, U>(s: seq<T>, x: T, f: T -> U)
    ensures Map(s + [x], f) == Map(s, f) + [f(x)]
  {
  }

  lemma {:induction false} InsertMap<T>(s: seq<T>, x: T, key: T -> string, leq: Leq, f: T -> T)
    requires forall t :: key(f(t)) == key(t)
    ensures Insert(Map(s, f), f(x), key, leq) == Map(Insert(s, x, key, leq), f)
  {
    if s != [] {
      var n := |s| - 1;
      InsertMap(s[..n], x, key, leq, f);
      assert Map(s, f)[..n] == Map(s[..n], f);
      MapAppend(s, x, f);
      MapAppend(Insert(s[..n], x, key, leq), s[n], f);
    }
  }

  /** A change that leaves the keys alone commutes with sorting. */
  lemma {:induction false} SortMap<T>(s: seq<T>, key: T -> string, leq: Leq, f: T -> T)
    requires forall t :: key(f(t)) == key(t)
    ensures SortBy(Map(s, f), key, leq) == Map(SortBy(s, key, leq), f)
  {
    if s != [] {
      var n := |s| - 1;
      SortMap(s[..n], key, leq, f);
      assert Map(s, f)[..n] == Map(s[..n], f);
      hide Insert;
      InsertMap(SortBy(s[..n], key, leq), s[n], key, leq, f);
    }
  }
}
