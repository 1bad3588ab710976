// Sorting by a strict total order: the result depends only on which elements there are.

module Sorting {
  ghost predicate StrictTotal<T(!new)>(less: (T, T) -> bool) {
    && (forall a :: !less(a, a))
    && (forall a, b, c :: less(a, b) && less(b, c) ==> less(a, c))
    && Connected(less)
  }

  ghost predicate Connected<T(!new)>(less: (T, T) -> bool) {
    forall a, b :: a == b || less(a, b) || less(b, a)
  }

  ghost predicate SortedBy<T>(less: (T, T) -> bool, s: seq<T>) {
    forall i, j | 0 <= i < j < |s| :: !less(s[j], s[i])
  }

  function Insert<T>(less: (T, T) -> bool, x: T, s: seq<T>): seq<T> {
    if s != [] && less(x, s[|s| - 1]) then Insert(less, x, s[..|s| - 1]) + [s[|s| - 1]] else s + [x]
  }

  /** A stable sort: each element goes after all earlier ones that are not greater. */
  function SortBy<T>(less: (T, T) -> bool, s: seq<T>): seq<T> {
    if s == [] then [] else Insert(less, s[|s| - 1], SortBy(less, s[..|s| - 1]))
  }

  lemma {:induction false} AllButLast<T>(s: seq<T>)
    requires s != []
    ensures multiset(s) == multiset(s[..|s| - 1]) + multiset{s[|s| - 1]}
  {
    assert s == s[..|s| - 1] + [s[|s| - 1]];
  }

  lemma {:induction false} Without<T>(s: seq<T>, j: nat)
    requires j < |s|
    ensures multiset(s[..j] + s[j + 1..]) == multiset(s) - multiset{s[j]}
  {
    assert s == s[..j] + [s[j]] + s[j + 1..];
  }

  lemma {:induction false} InsertElements<T>(less: (T, T) -> bool, x: T, s: seq<T>)
    ensures multiset(Insert(less, x, s)) == multiset(s) + multiset{x}
  {
    if s != [] && less(x, s[|s| - 1]) {
      InsertElements(less, x, s[..|s| - 1]);
      AllButLast(s);
    }
  }

  lemma {:induction false} SortElements<T>(less: (T, T) -> bool, s: seq<T>)
    ensures multiset(SortBy(less, s)) == multiset(s)
  {
    if s != [] {
      SortElements(less, s[..|s| - 1]);
      InsertElements(less, s[|s| - 1], SortBy(less, s[..|s| - 1]));
      AllButLast(s);
    }
  }

  lemma {:induction false} InsertSorted<T(!new)>(less: (T, T) -> bool, x: T, s: seq<T>)
    requires StrictTotal(less) && SortedBy(less, s)
    ensures SortedBy(less, Insert(less, x, s))
  {
    if s != [] && less(x, s[|s| - 1]) {
      var init, last := s[..|s| - 1], s[|s| - 1];
      InsertSorted(less, x, init);
      InsertElements(less, x, init);
      var r := Insert(less, x, init);
      forall i | 0 <= i < |r|
        ensures !less(last, r[i])
      {
        assert r[i] in multiset(r);
        assert r[i] == x || r[i] in init;
      }
    } else if s != [] {
      forall i | 0 <= i < |s|
        ensures !less(x, s[i])
      {
        assert i < |s| - 1 ==> !less(s[|s| - 1], s[i]);
      }
    }
  }

  lemma {:induction false} SortSorts<T(!new)>(less: (T, T) -> bool, s: seq<T>)
    requires StrictTotal(less)
    ensures SortedBy(less, SortBy(less, s))
  {
    if s != [] {
      SortSorts(less, s[..|s| - 1]);
      InsertSorted(less, s[|s| - 1], SortBy(less, s[..|s| - 1]));
    }
  }

  lemma {:induction false} SameLength<T>(s: seq<T>, t: seq<T>)
    requires multiset(s) == multiset(t)
    ensures |s| == |t|
  {
    assert |s| == |multiset(s)| && |t| == |multiset(t)|;
  }

  lemma {:induction false} Tails<T>(s: seq<T>, t: seq<T>)
    requires s != [] && t != [] && s[0] == t[0] && multiset(s) == multiset(t)
    ensures multiset(s[1..]) == multiset(t[1..])
  {
    Tail(s);
    Tail(t);
  }

  lemma {:induction false} Tail<T>(s: seq<T>)
    requires s != []
    ensures multiset(s[1..]) == multiset(s) - multiset{s[0]}
  {
    Without(s, 0);
    assert s[..0] + s[1..] == s[1..];
  }

  /** Sorted sequences with the same elements are the same. */
  lemma {:induction false} SortedUnique<T(!new)>(less: (T, T) -> bool, s: seq<T>, t: seq<T>)
    requires Connected(less) && SortedBy(less, s) && SortedBy(less, t) && multiset(s) == multiset(t)
    ensures s == t
  {
    SameLength(s, t);
    if s != [] {
      SameFirst(less, s, t);
      Tails(s, t);
      SortedUnique(less, s[1..], t[1..]);
      assert s == [s[0]] + s[1..] && t == [t[0]] + t[1..];
    }
  }

  lemma {:induction false} SameFirst<T(!new)>(less: (T, T) -> bool, s: seq<T>, t: seq<T>)
    requires Connected(less) && SortedBy(less, s) && SortedBy(less, t) && multiset(s) == multiset(t)
    requires s != [] && t != []
    ensures s[0] == t[0]
  {
    assert s[0] in multiset(t) && t[0] in multiset(s);
    var i :| 0 <= i < |t| && t[i] == s[0];
    var j :| 0 <= j < |s| && s[j] == t[0];
    assert i > 0 ==> !less(t[i], t[0]);
    assert j > 0 ==> !less(s[j], s[0]);
  }

  /** Sorting a permutation of s gives the same, and sorting what is sorted changes nothing. */
  lemma {:induction false} SortDependsOnElements<T(!new)>(less: (T, T) -> bool, s: seq<T>, t: seq<T>)
    requires StrictTotal(less) && multiset(s) == multiset(t)
    ensures SortBy(less, s) == SortBy(less, t)
    ensures SortedBy(less, s) ==> SortBy(less, t) == s
  {
    SortSorts(less, s);
    SortSorts(less, t);
    SortElements(less, s);
    SortElements(less, t);
    SortedUnique(less, SortBy(less, s), SortBy(less, t));
    if SortedBy(less, s) {
      SortedUnique(less, s, SortBy(less, t));
    }
  }

  function Map<T, U>(f: T -> U, s: seq<T>): (r: seq<U>)
    ensures |r| == |s| && forall i | 0 <= i < |s| :: r[i] == f(s[i])
  {
    seq(|s|, i requires 0 <= i < |s| => f(s[i]))
  }

  lemma {:induction false} MapWithout<T, U>(f: T -> U, s: seq<T>, j: nat)
    requires j < |s|
    ensures multiset(Map(f, s)) == multiset(Map(f, s[..j] + s[j + 1..])) + multiset{f(s[j])}
  {
    var image := Map(f, s);
    assert image == image[..j] + [f(s[j])] + image[j + 1..];
    assert Map(f, s[..j] + s[j + 1..]) == image[..j] + image[j + 1..];
  }

  lemma {:induction false} MapStep<T, U>(f: T -> U, s: seq<T>, t: seq<T>, j: nat)
    requires s != [] && j < |t| && s[0] == t[j]
    requires multiset(Map(f, s[..0] + s[1..])) == multiset(Map(f, t[..j] + t[j + 1..]))
    ensures multiset(Map(f, s)) == multiset(Map(f, t))
  {
    MapWithout(f, s, 0);
    MapWithout(f, t, j);
  }

  /** The elements of an image depend only on the elements of the original. */
  lemma {:induction false} MapElements<T, U>(f: T -> U, s: seq<T>, t: seq<T>)
    requires multiset(s) == multiset(t)
    ensures multiset(Map(f, s)) == multiset(Map(f, t))
    decreases |s|
  {
    SameLength(s, t);
    if s == [] {
      assert Map(f, s) == Map(f, t);
    } else {
      assert s[0] in multiset(t);
      var j :| 0 <= j < |t| && t[j] == s[0];
      Without(s, 0);
      Without(t, j);
      MapElements(f, s[..0] + s[1..], t[..j] + t[j + 1..]);
      MapStep(f, s, t, j);
    }
  }
}
