/** Lists and sets whose order does not matter, put into one order. */
module Ordering {
  import opened Seqs
  import opened Text

  /** Tuple comparison, component by component. */
  predicate TupleLeq(a: seq<string>, b: seq<string>) {
    a == [] || (b != [] && (if a[0] == b[0] then TupleLeq(a[1..], b[1..]) else LexLeq(a[0], b[0])))
  }

  lemma {:induction false} TupleLeqTotal(a: seq<string>, b: seq<string>)
    ensures TupleLeq(a, b) || TupleLeq(b, a)
  {
    if a != [] && b != [] {
      TupleLeqTotal(a[1..], b[1..]);
      LexLeqTotal(a[0], b[0]);
    }
  }

  lemma {:induction false} TupleLeqTransitive(a: seq<string>, b: seq<string>, c: seq<string>)
    requires TupleLeq(a, b) && TupleLeq(b, c)
    ensures TupleLeq(a, c)
  {
    if a != [] {
      if a[0] == b[0] == c[0] {
        TupleLeqTransitive(a[1..], b[1..], c[1..]);
      } else if a[0] != b[0] && b[0] != c[0] {
        LexLeqTransitive(a[0], b[0], c[0]);
        if a[0] == c[0] {
          LexLeqAntisymmetric(a[0], b[0]);
        }
      }
    }
  }

  lemma {:induction false} TupleLeqAntisymmetric(a: seq<string>, b: seq<string>)
    requires TupleLeq(a, b) && TupleLeq(b, a)
    ensures a == b
  {
    if a != [] {
      if a[0] == b[0] {
        TupleLeqAntisymmetric(a[1..], b[1..]);
        assert a == [a[0]] + a[1..] && b == [b[0]] + b[1..];
      } else {
        LexLeqAntisymmetric(a[0], b[0]);
      }
    }
  }

  // ---------------------------------------------------------------- a set in order

  ghost function SomeList<T(!new)>(s: set<T>): (list: seq<T>)
    ensures NoDuplicates(list) && forall x :: x in list <==> x in s
    decreases s
  {
    if s == {} then []
    else
      var x :| x in s;
      SomeList(s - {x}) + [x]
  }

  /** sorted() of a set. */
  ghost function InOrder<T(!new)>(leq: (T, T) -> bool, s: set<T>): seq<T> {
    Sort(leq, SomeList(s))
  }

  lemma {:induction false} SameElementsSameMultiset<T>(a: seq<T>, b: seq<T>)
    requires NoDuplicates(a) && NoDuplicates(b) && forall x :: x in a <==> x in b
    ensures multiset(a) == multiset(b)
  {
    DistinctIffOnce(a);
    DistinctIffOnce(b);
    forall x
      ensures multiset(a)[x] == multiset(b)[x]
    {
      assert x in a <==> x in multiset(a);
      assert x in b <==> x in multiset(b);
    }
  }

  /** Any list of the elements sorts to the same. */
  lemma SortedList<T(!new)>(leq: (T, T) -> bool, s: set<T>, list: seq<T>)
    requires TotalPreorder(leq) && Antisymmetric(leq)
    requires NoDuplicates(list) && forall x :: x in list <==> x in s
    ensures Sort(leq, list) == InOrder(leq, s)
  {
    SameElementsSameMultiset(list, SomeList(s));
    SortPermutation(leq, list, SomeList(s));
  }

  lemma InOrderMembers<T(!new)>(leq: (T, T) -> bool, s: set<T>)
    ensures NoDuplicates(InOrder(leq, s)) && forall x :: x in InOrder(leq, s) <==> x in s
  {
    SortMembers(leq, SomeList(s));
    SortMultiset(leq, SomeList(s));
    DistinctIffOnce(SomeList(s));
    DistinctIffOnce(InOrder(leq, s));
  }

  /** sorted() of a set. */
  method SortedSet<T(==,!new)>(leq: (T, T) -> bool, s: set<T>) returns (list: seq<T>)
    requires TotalPreorder(leq) && Antisymmetric(leq)
    ensures list == InOrder(leq, s)
  {
    var found := ListOf(s);
    SortedList(leq, s, found);
    list := Sort(leq, found);
  }

  // ---------------------------------------------------------------- mapping after sorting

  function Map<A, B>(f: A -> B, s: seq<A>): seq<B> {
    if s == [] then [] else [f(s[0])] + Map(f, s[1..])
  }

  function ByKey<A, B>(leq: (B, B) -> bool, key: A -> B): (A, A) -> bool {
    (x: A, y: A) => leq(key(x), key(y))
  }

  /** Sorting by a key and keeping the key is keeping the keys and sorting them. */
  lemma {:induction false} SortThenMap<A, B>(leq: (B, B) -> bool, key: A -> B, s: seq<A>)
    ensures Map(key, Sort(ByKey(leq, key), s)) == Sort(leq, Map(key, s))
  {
    if s != [] {
      SortThenMap(leq, key, s[1..]);
      InsertThenMap(leq, key, s[0], Sort(ByKey(leq, key), s[1..]));
    }
  }

  lemma {:induction false} InsertThenMap<A, B>(leq: (B, B) -> bool, key: A -> B, x: A, s: seq<A>)
    ensures Map(key, Insert(ByKey(leq, key), x, s)) == Insert(leq, key(x), Map(key, s))
  {
    var byKey := ByKey(leq, key);
    if s == [] || byKey(x, s[0]) {
      assert ([x] + s)[1..] == s;
    } else {
      InsertThenMap(leq, key, x, s[1..]);
      assert ([s[0]] + Insert(byKey, x, s[1..]))[1..] == Insert(byKey, x, s[1..]);
    }
  }

  lemma RemoveAt<T>(s: seq<T>, i: nat)
    requires i < |s|
    ensures multiset(s[..i] + s[i + 1..]) == multiset(s) - multiset{s[i]}
  {
    assert s == s[..i] + [s[i]] + s[i + 1..];
  }

  lemma {:induction false} MapMultiset<A, B>(f: A -> B, a: seq<A>, b: seq<A>)
    requires multiset(a) == multiset(b)
    ensures multiset(Map(f, a)) == multiset(Map(f, b))
    decreases |a|
  {
    assert |multiset(a)| == |multiset(b)|;
    if a != [] {
      assert a[0] in multiset(b);
      var i :| 0 <= i < |b| && b[i] == a[0];
      TailMultiset(a);
      RemoveAt(b, i);
      MapMultiset(f, a[1..], b[..i] + b[i + 1..]);
      MapWithout(f, b, i);
      HeadMultiset(f(a[0]), Map(f, a[1..]));
    }
  }

  lemma HeadMultiset<T>(x: T, s: seq<T>)
    ensures multiset([x] + s) == multiset(s) + multiset{x}
  {
  }

  lemma MapWithout<A, B>(f: A -> B, s: seq<A>, i: nat)
    requires i < |s|
    ensures multiset(Map(f, s)) == multiset(Map(f, s[..i] + s[i + 1..])) + multiset{f(s[i])}
  {
    MapAppend(f, s[..i], s[i..]);
    MapAppend(f, s[..i], s[i + 1..]);
    assert s == s[..i] + s[i..];
    assert s[i..][1..] == s[i + 1..];
    assert Map(f, s[i..]) == [f(s[i])] + Map(f, s[i + 1..]);
  }

  lemma {:induction false} MapAppend<A, B>(f: A -> B, a: seq<A>, b: seq<A>)
    ensures Map(f, a + b) == Map(f, a) + Map(f, b)
  {
    if a == [] {
      assert a + b == b;
    } else {
      MapAppend(f, a[1..], b);
      assert (a + b)[1..] == a[1..] + b && (a + b)[0] == a[0];
      assert Map(f, a + b) == [f(a[0])] + Map(f, a[1..] + b);
    }
  }

  lemma MapNext<A, B>(f: A -> B, s: seq<A>, i: nat)
    requires i < |s|
    ensures Map(f, s[..i + 1]) == Map(f, s[..i]) + [f(s[i])]
  {
    MapAppend(f, s[..i], [s[i]]);
    assert s[..i + 1] == s[..i] + [s[i]];
    assert [s[i]][1..] == [];
  }

  lemma Whole<T>(s: seq<T>)
    ensures s[..|s|] == s
  {
  }

  lemma {:induction false} MapFacts<A, B>(f: A -> B, s: seq<A>)
    ensures |Map(f, s)| == |s|
    ensures forall i :: 0 <= i < |s| ==> Map(f, s)[i] == f(s[i])
  {
    if s != [] {
      MapFacts(f, s[1..]);
      forall i | 0 < i < |s|
        ensures Map(f, s)[i] == f(s[i])
      {
        assert Map(f, s)[i] == Map(f, s[1..])[i - 1];
      }
    }
  }

  lemma MapMembers<A, B>(f: A -> B, s: seq<A>, y: B)
    ensures y in Map(f, s) <==> exists x :: x in s && f(x) == y
  {
    MapFacts(f, s);
    if y in Map(f, s) {
      var i :| 0 <= i < |s| && Map(f, s)[i] == y;
      assert s[i] in s;
    }
    if x :| x in s && f(x) == y {
      var i :| 0 <= i < |s| && s[i] == x;
      assert Map(f, s)[i] == y;
    }
  }

  function Filter<T>(p: T -> bool, s: seq<T>): seq<T> {
    if s == [] then []
    else Filter(p, s[..|s| - 1]) + (if p(s[|s| - 1]) then [s[|s| - 1]] else [])
  }

  lemma {:induction false} FilterCounts<T>(p: T -> bool, s: seq<T>, x: T)
    ensures multiset(Filter(p, s))[x] == if p(x) then multiset(s)[x] else 0
  {
    if s != [] {
      FilterCounts(p, s[..|s| - 1], x);
      assert s == s[..|s| - 1] + [s[|s| - 1]];
    }
  }

  lemma FilterMultiset<T(!new)>(p: T -> bool, a: seq<T>, b: seq<T>)
    requires multiset(a) == multiset(b)
    ensures multiset(Filter(p, a)) == multiset(Filter(p, b))
  {
    forall x
      ensures multiset(Filter(p, a))[x] == multiset(Filter(p, b))[x]
    {
      FilterCounts(p, a, x);
      FilterCounts(p, b, x);
    }
  }
}
