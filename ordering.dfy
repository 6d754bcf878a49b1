/** Python's ordering of strings and of tuples of strings, and `sorted` applied
    to a set: the list of the set's elements in strictly increasing order. */
module Ordering {

  /** `a < b` on Python `str`: lexicographic by code point, a proper prefix first. */
  predicate StrLess(a: string, b: string)
    decreases |a|
  {
    if a == [] then b != []
    else if b == [] then false
    else if a[0] == b[0] then StrLess(a[1..], b[1..])
    else a[0] < b[0]
  }

  /** `<` on `(table, field)` tuples: compare the first components, then the second. */
  predicate PairLess(x: (string, string), y: (string, string)) {
    StrLess(x.0, y.0) || (x.0 == y.0 && StrLess(x.1, y.1))
  }

  /** `<` on four-string tuples, component by component. */
  predicate QuadLess(x: (string, string, string, string), y: (string, string, string, string)) {
    || StrLess(x.0, y.0)
    || (x.0 == y.0 && StrLess(x.1, y.1))
    || (x.0 == y.0 && x.1 == y.1 && StrLess(x.2, y.2))
    || (x.0 == y.0 && x.1 == y.1 && x.2 == y.2 && StrLess(x.3, y.3))
  }

  ghost predicate StrictTotalOrder<T(!new)>(lt: (T, T) -> bool) {
    && (forall x :: !lt(x, x))
    && (forall x, y, z :: lt(x, y) && lt(y, z) ==> lt(x, z))
    && (forall x, y :: x == y || lt(x, y) || lt(y, x))
  }

  lemma {:induction false} StrLessIrreflexive(a: string)
    ensures !StrLess(a, a)
    decreases |a|
  {
    if a != [] {
      StrLessIrreflexive(a[1..]);
    }
  }

  lemma {:induction false} StrLessTransitive(a: string, b: string, c: string)
    requires StrLess(a, b) && StrLess(b, c)
    ensures StrLess(a, c)
    decreases |a|
  {
    if a != [] && b != [] && c != [] && a[0] == b[0] && b[0] == c[0] {
      StrLessTransitive(a[1..], b[1..], c[1..]);
    }
  }

  lemma {:induction false} StrLessTotal(a: string, b: string)
    ensures a == b || StrLess(a, b) || StrLess(b, a)
    decreases |a|
  {
    if a != [] && b != [] && a[0] == b[0] {
      StrLessTotal(a[1..], b[1..]);
      if a[1..] == b[1..] {
        assert a == [a[0]] + a[1..] && b == [b[0]] + b[1..];
      }
    }
  }

  lemma StrLessIsStrictTotalOrder()
    ensures StrictTotalOrder(StrLess)
  {
    forall a ensures !StrLess(a, a) {
      StrLessIrreflexive(a);
    }
    forall a, b, c | StrLess(a, b) && StrLess(b, c) ensures StrLess(a, c) {
      StrLessTransitive(a, b, c);
    }
    forall a, b ensures a == b || StrLess(a, b) || StrLess(b, a) {
      StrLessTotal(a, b);
    }
  }

  lemma PairLessIsStrictTotalOrder()
    ensures StrictTotalOrder(PairLess)
  {
    StrLessIsStrictTotalOrder();
  }

  lemma QuadLessIsStrictTotalOrder()
    ensures StrictTotalOrder(QuadLess)
  {
    StrLessIsStrictTotalOrder();
    forall x, y, z | QuadLess(x, y) && QuadLess(y, z) ensures QuadLess(x, z) {
    }
  }

  /** Every element is below every later one: sorted, with no duplicates. */
  predicate StrictlySorted<T>(xs: seq<T>, lt: (T, T) -> bool) {
    forall i, j :: 0 <= i < j < |xs| ==> lt(xs[i], xs[j])
  }

  /** `l` is what `sorted` gives for the set `s`: strictly increasing, holding
      exactly the elements of `s`. */
  ghost predicate SortedSetOf<T(!new)>(l: seq<T>, s: set<T>, lt: (T, T) -> bool) {
    StrictlySorted(l, lt) && forall x :: x in l <==> x in s
  }

  /** `m` is the smallest element of `s`. */
  predicate IsLeast<T>(m: T, s: set<T>, lt: (T, T) -> bool) {
    m in s && forall x :: x in s && x != m ==> lt(m, x)
  }

  /** A finite non-empty set has a smallest element. */
  lemma {:induction false} LeastExists<T(!new)>(s: set<T>, lt: (T, T) -> bool)
    requires StrictTotalOrder(lt) && s != {}
    ensures exists m :: IsLeast(m, s, lt)
    decreases |s|
  {
    var y :| y in s;
    if s == {y} {
      assert forall x :: x in s ==> x == y;
      assert IsLeast(y, s, lt);
    } else {
      var rest := s - {y};
      LeastExists(rest, lt);
      var m :| IsLeast(m, rest, lt);
      if lt(y, m) {
        forall x | x in s && x != y ensures lt(y, x) {
          if x != m {
            assert x in rest && lt(m, x);
          }
        }
        assert IsLeast(y, s, lt);
      } else {
        assert lt(m, y);
        assert IsLeast(m, s, lt);
      }
    }
  }

  /** The first element of a strictly sorted list is its smallest. */
  lemma HeadIsLeast<T>(xs: seq<T>, lt: (T, T) -> bool)
    requires StrictlySorted(xs, lt) && xs != []
    ensures IsLeast(xs[0], (set x | x in xs), lt)
  {
    forall x | x in xs && x != xs[0] ensures lt(xs[0], x) {
      var i :| 0 <= i < |xs| && xs[i] == x;
    }
  }

  lemma LeastUnique<T(!new)>(m: T, n: T, s: set<T>, lt: (T, T) -> bool)
    requires StrictTotalOrder(lt) && IsLeast(m, s, lt) && IsLeast(n, s, lt)
    ensures m == n
  {
  }

  /** `sorted(s)` for a set `s`: its elements, each once, in increasing order. */
  function SortedList<T(!new)>(s: set<T>, lt: (T, T) -> bool): (r: seq<T>)
    requires StrictTotalOrder(lt)
    ensures StrictlySorted(r, lt)
    ensures forall x :: x in r <==> x in s
    ensures |r| == |s|
    decreases |s|
  {
    if s == {} then []
    else
      LeastExists(s, lt);
      var m :| IsLeast(m, s, lt);
      [m] + SortedList(s - {m}, lt)
  }

  /** A strictly sorted list is determined by its elements: two of them holding
      the same elements are equal. */
  lemma {:induction false} StrictlySortedUnique<T(!new)>(a: seq<T>, b: seq<T>, lt: (T, T) -> bool)
    requires StrictTotalOrder(lt)
    requires StrictlySorted(a, lt) && StrictlySorted(b, lt)
    requires forall x :: x in a <==> x in b
    ensures a == b
    decreases |a|
  {
    if a != [] && b != [] {
      HeadIsLeast(a, lt);
      HeadIsLeast(b, lt);
      assert (set x | x in a) == (set x | x in b);
      LeastUnique(a[0], b[0], (set x | x in a), lt);
      forall x ensures x in a[1..] <==> x in b[1..] {
        if x in a[1..] {
          var i :| 1 <= i < |a| && a[i] == x;
          assert lt(a[0], x);
          assert x in b && x != b[0];
        }
        if x in b[1..] {
          var j :| 1 <= j < |b| && b[j] == x;
          assert lt(b[0], x);
          assert x in a && x != a[0];
        }
      }
      StrictlySortedUnique(a[1..], b[1..], lt);
      assert a == [a[0]] + a[1..] && b == [b[0]] + b[1..];
    } else {
      DistinctCount(a, lt);
      DistinctCount(b, lt);
      assert (set x | x in a) == (set x | x in b);
    }
  }

  /** A strictly sorted list holds no element twice. */
  lemma {:induction false} DistinctCount<T(!new)>(xs: seq<T>, lt: (T, T) -> bool)
    requires StrictTotalOrder(lt) && StrictlySorted(xs, lt)
    ensures |set x | x in xs| == |xs|
  {
    if xs != [] {
      DistinctCount(xs[1..], lt);
      assert xs[0] !in xs[1..];
      assert (set x | x in xs) == {xs[0]} + (set x | x in xs[1..]);
    }
  }

  /** Sorting a set gives the one strictly sorted list of its elements. */
  lemma SortedListIsTheSortedList<T(!new)>(s: set<T>, xs: seq<T>, lt: (T, T) -> bool)
    requires StrictTotalOrder(lt)
    requires StrictlySorted(xs, lt) && forall x :: x in xs <==> x in s
    ensures SortedList(s, lt) == xs
  {
    StrictlySortedUnique(SortedList(s, lt), xs, lt);
  }
}
