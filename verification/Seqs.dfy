/** Sequence operations the importers and matchers lean on: first occurrences and stable sorting. */
module Seqs {

  predicate NoDuplicates<T(==)>(s: seq<T>) {
    forall i, j :: 0 <= i < j < |s| ==> s[i] != s[j]
  }

  /** The distinct elements in order of first appearance. */
  function FirstOccurrences<T(==)>(s: seq<T>): seq<T> {
    if s == [] then []
    else
      var rest := FirstOccurrences(s[..|s| - 1]);
      if s[|s| - 1] in rest then rest else rest + [s[|s| - 1]]
  }

  lemma {:induction false} FirstOccurrencesAreDistinct<T>(s: seq<T>)
    ensures NoDuplicates(FirstOccurrences(s))
    ensures forall x :: x in FirstOccurrences(s) <==> x in s
  {
    if s != [] {
      FirstOccurrencesAreDistinct(s[..|s| - 1]);
      assert s == s[..|s| - 1] + [s[|s| - 1]];
    }
  }

  lemma SubsetCard<T>(a: set<T>, b: set<T>)
    requires a <= b
    ensures |a| <= |b|
  {
    assert b == a + (b - a);
  }

  lemma {:induction false} DistinctCount<T>(s: seq<T>, bound: set<T>)
    requires NoDuplicates(s)
    requires forall x :: x in s ==> x in bound
    ensures |s| <= |bound|
  {
    if s != [] {
      var last := s[|s| - 1];
      var front := s[..|s| - 1];
      forall x | x in front
        ensures x in bound - {last}
      {
        var i :| 0 <= i < |front| && front[i] == x;
        assert s[i] == x;
      }
      DistinctCount(front, bound - {last});
    }
  }

  /** A list without repetition is as long as its set of elements is large. */
  lemma {:induction false} DistinctSize<T>(list: seq<T>, s: set<T>)
    requires NoDuplicates(list) && forall x :: x in list <==> x in s
    ensures |list| == |s|
  {
    if list == [] {
      assert s == {};
    } else {
      var front, last := list[..|list| - 1], list[|list| - 1];
      forall x
        ensures x in front <==> x in s - {last}
      {
        assert list == front + [last];
      }
      DistinctSize(front, s - {last});
    }
  }

  // ---------------------------------------------------------------- stable insertion sort

  function Insert<T>(leq: (T, T) -> bool, x: T, s: seq<T>): seq<T> {
    if s == [] || leq(x, s[0]) then [x] + s else [s[0]] + Insert(leq, x, s[1..])
  }

  /** sorted(): stable, so elements that compare equal keep their order. */
  function Sort<T>(leq: (T, T) -> bool, s: seq<T>): seq<T> {
    if s == [] then [] else Insert(leq, s[0], Sort(leq, s[1..]))
  }

  ghost predicate TotalPreorder<T(!new)>(leq: (T, T) -> bool) {
    && (forall x, y :: leq(x, y) || leq(y, x))
    && (forall x, y, z :: leq(x, y) && leq(y, z) ==> leq(x, z))
  }

  ghost predicate Sorted<T>(leq: (T, T) -> bool, s: seq<T>) {
    forall i, j :: 0 <= i < j < |s| ==> leq(s[i], s[j])
  }

  lemma {:induction false} InsertMultiset<T>(leq: (T, T) -> bool, x: T, s: seq<T>)
    ensures multiset(Insert(leq, x, s)) == multiset{x} + multiset(s)
  {
    if s != [] && !leq(x, s[0]) {
      InsertMultiset(leq, x, s[1..]);
      assert s == [s[0]] + s[1..];
    }
  }

  lemma {:induction false} SortMultiset<T>(leq: (T, T) -> bool, s: seq<T>)
    ensures multiset(Sort(leq, s)) == multiset(s)
    ensures |Sort(leq, s)| == |s|
  {
    if s != [] {
      SortMultiset(leq, s[1..]);
      InsertMultiset(leq, s[0], Sort(leq, s[1..]));
      assert s == [s[0]] + s[1..];
    }
    assert |multiset(Sort(leq, s))| == |multiset(s)|;
  }

  lemma {:induction false} InsertSorted<T(!new)>(leq: (T, T) -> bool, x: T, s: seq<T>)
    requires TotalPreorder(leq) && Sorted(leq, s)
    ensures Sorted(leq, Insert(leq, x, s))
  {
    if s != [] && !leq(x, s[0]) {
      InsertSorted(leq, x, s[1..]);
      InsertMultiset(leq, x, s[1..]);
      var rest := Insert(leq, x, s[1..]);
      forall j | 0 <= j < |rest|
        ensures leq(s[0], rest[j])
      {
        assert rest[j] in multiset(rest);
        assert rest[j] == x || rest[j] in s[1..];
      }
    }
  }

  lemma {:induction false} SortSorted<T(!new)>(leq: (T, T) -> bool, s: seq<T>)
    requires TotalPreorder(leq)
    ensures Sorted(leq, Sort(leq, s))
  {
    if s != [] {
      SortSorted(leq, s[1..]);
      InsertSorted(leq, s[0], Sort(leq, s[1..]));
    }
  }

  lemma SortMembers<T>(leq: (T, T) -> bool, s: seq<T>)
    ensures forall x :: x in Sort(leq, s) <==> x in s
  {
    SortMultiset(leq, s);
    forall x
      ensures x in Sort(leq, s) <==> x in s
    {
      assert x in multiset(Sort(leq, s)) <==> x in multiset(s);
    }
  }

  ghost predicate Antisymmetric<T(!new)>(leq: (T, T) -> bool) {
    forall x, y :: leq(x, y) && leq(y, x) ==> x == y
  }

  lemma SortedHeads<T(!new)>(leq: (T, T) -> bool, a: seq<T>, b: seq<T>)
    requires TotalPreorder(leq) && Antisymmetric(leq)
    requires Sorted(leq, a) && Sorted(leq, b) && multiset(a) == multiset(b) && a != [] && b != []
    ensures a[0] == b[0]
  {
    assert a[0] in multiset(b) && b[0] in multiset(a);
    var i :| 0 <= i < |b| && b[i] == a[0];
    var j :| 0 <= j < |a| && a[j] == b[0];
    assert leq(a[0], a[0]) && leq(b[0], b[0]);
    assert leq(a[0], b[0]) && leq(b[0], a[0]);
  }

  lemma TailMultiset<T>(s: seq<T>)
    requires s != []
    ensures multiset(s[1..]) == multiset(s) - multiset{s[0]}
  {
    assert s == [s[0]] + s[1..];
  }

  /** Two sorted arrangements of the same elements are the same sequence. */
  lemma {:induction false} SortedUnique<T(!new)>(leq: (T, T) -> bool, a: seq<T>, b: seq<T>)
    requires TotalPreorder(leq) && Antisymmetric(leq)
    requires Sorted(leq, a) && Sorted(leq, b) && multiset(a) == multiset(b)
    ensures a == b
  {
    assert |multiset(a)| == |multiset(b)|;
    if a != [] {
      SortedHeads(leq, a, b);
      TailMultiset(a);
      TailMultiset(b);
      SortedUnique(leq, a[1..], b[1..]);
      assert a == [a[0]] + a[1..] && b == [b[0]] + b[1..];
    }
  }

  /** Sorting forgets the arrangement of its input. */
  lemma SortPermutation<T(!new)>(leq: (T, T) -> bool, a: seq<T>, b: seq<T>)
    requires TotalPreorder(leq) && Antisymmetric(leq) && multiset(a) == multiset(b)
    ensures Sort(leq, a) == Sort(leq, b)
  {
    SortMultiset(leq, a);
    SortMultiset(leq, b);
    SortSorted(leq, a);
    SortSorted(leq, b);
    SortedUnique(leq, Sort(leq, a), Sort(leq, b));
  }

  /** The first of a sort comes before everything. */
  lemma SortHead<T(!new)>(leq: (T, T) -> bool, s: seq<T>)
    requires TotalPreorder(leq) && s != []
    ensures |Sort(leq, s)| == |s| && Sort(leq, s)[0] in s
    ensures forall x :: x in s ==> leq(Sort(leq, s)[0], x)
  {
    SortMultiset(leq, s);
    SortMembers(leq, s);
    SortSorted(leq, s);
    var ranked := Sort(leq, s);
    assert ranked[0] in ranked;
    forall x | x in s
      ensures leq(ranked[0], x)
    {
      var k :| 0 <= k < |ranked| && ranked[k] == x;
      assert leq(x, x);
    }
  }

  /** The second of a sort comes before everything left when the first is taken out. */
  lemma SortSecond<T(!new)>(leq: (T, T) -> bool, s: seq<T>, x: T)
    requires TotalPreorder(leq) && |s| > 1
    requires x in multiset(s) - multiset{Sort(leq, s)[0]}
    ensures |Sort(leq, s)| == |s|
    ensures leq(Sort(leq, s)[1], x)
    ensures Sort(leq, s)[1] in multiset(s) - multiset{Sort(leq, s)[0]}
  {
    SortMultiset(leq, s);
    SortSorted(leq, s);
    var ranked := Sort(leq, s);
    TailMultiset(ranked);
    SecondIsLeast(leq, ranked, x);
  }

  lemma SecondIsLeast<T(!new)>(leq: (T, T) -> bool, ranked: seq<T>, x: T)
    requires TotalPreorder(leq) && Sorted(leq, ranked) && |ranked| > 1 && x in multiset(ranked[1..])
    ensures leq(ranked[1], x) && ranked[1] in multiset(ranked[1..])
  {
    assert ranked[1..][0] in multiset(ranked[1..]);
    var k :| 0 <= k < |ranked[1..]| && ranked[1..][k] == x;
    assert leq(x, x);
  }

  // ---------------------------------------------------------------- sets as lists

  /** The elements in some order, each once. */
  method ListOf<T(==)>(s: set<T>) returns (list: seq<T>)
    ensures NoDuplicates(list) && |list| == |s| && forall x :: x in list <==> x in s
  {
    list := [];
    var rest := s;
    while rest != {}
      invariant rest <= s && NoDuplicates(list) && |list| + |rest| == |s|
      invariant forall x :: x in list <==> x in s && x !in rest
      decreases rest
    {
      var x :| x in rest;
      list, rest := list + [x], rest - {x};
    }
  }

  lemma {:induction false} DistinctIffOnce<T>(s: seq<T>)
    ensures NoDuplicates(s) <==> forall x :: multiset(s)[x] <= 1
  {
    if s != [] {
      var front, last := s[..|s| - 1], s[|s| - 1];
      assert s == front + [last];
      DistinctIffOnce(front);
      if NoDuplicates(s) {
        assert last !in multiset(front);
      }
      if forall x :: multiset(s)[x] <= 1 {
        assert multiset(s)[last] == multiset(front)[last] + 1;
        forall x
          ensures multiset(front)[x] <= 1
        {
          assert multiset(s)[x] >= multiset(front)[x];
        }
        assert last !in multiset(front);
      }
    }
  }
}
