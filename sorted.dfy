/** In-order enumeration of a finite set under a strict total order: the
    order in which Rust's `BTreeSet` and `BTreeMap` hand out their
    elements and keys. */
module Sorted {

  ghost predicate IsStrictTotalOrder<T(!new)>(less: (T, T) -> bool)
  {
    && (forall a :: !less(a, a))
    && (forall a, b, c :: less(a, b) && less(b, c) ==> less(a, c))
    && (forall a, b :: a != b ==> less(a, b) || less(b, a))
  }

  ghost predicate StrictlySorted<T>(s: seq<T>, less: (T, T) -> bool)
  {
    forall i, j :: 0 <= i < j < |s| ==> less(s[i], s[j])
  }

  ghost predicate IsLeast<T>(m: T, s: set<T>, less: (T, T) -> bool)
  {
    m in s && forall x :: x in s && x != m ==> less(m, x)
  }

  lemma {:induction false} LeastExists<T(!new)>(s: set<T>, less: (T, T) -> bool) returns (m: T)
    requires IsStrictTotalOrder(less)
    requires s != {}
    ensures IsLeast(m, s, less)
    decreases |s|
  {
    var x :| x in s;
    if s == {x} {
      m := x;
    } else {
      var m' := LeastExists(s - {x}, less);
      assert m' in s && m' != x;
      if less(x, m') {
        m := x;
        forall y | y in s && y != x ensures less(x, y) {
          if y != m' {
            assert less(m', y);
          }
        }
      } else {
        m := m';
        assert less(m', x);
      }
    }
  }

  /** The elements of `s` in ascending order. */
  ghost function SortedBy<T(!new)>(s: set<T>, less: (T, T) -> bool): (r: seq<T>)
    requires IsStrictTotalOrder(less)
    ensures StrictlySorted(r, less)
    ensures forall x :: x in r <==> x in s
    ensures |r| == |s|
    decreases |s|
  {
    if s == {} then []
    else
      assert exists m :: IsLeast(m, s, less) by {
        var m := LeastExists(s, less);
      }
      var m :| IsLeast(m, s, less);
      [m] + SortedBy(s - {m}, less)
  }

  lemma HeadIsLeast<T(!new)>(a: seq<T>, less: (T, T) -> bool)
    requires StrictlySorted(a, less)
    requires a != []
    ensures forall x :: x in a && x != a[0] ==> less(a[0], x)
  {
    forall x | x in a && x != a[0] ensures less(a[0], x) {
      var i :| 0 <= i < |a| && a[i] == x;
    }
  }

  /** Two ascending enumerations of the same elements are the same. */
  lemma {:induction false} SortedUnique<T(!new)>(a: seq<T>, b: seq<T>, less: (T, T) -> bool)
    requires IsStrictTotalOrder(less)
    requires StrictlySorted(a, less) && StrictlySorted(b, less)
    requires forall x :: x in a <==> x in b
    ensures a == b
    decreases |a|
  {
    if a != [] {
      assert a[0] in b;
    }
    if b != [] {
      assert b[0] in a;
    }
    if a != [] && b != [] {
      HeadIsLeast(a, less);
      HeadIsLeast(b, less);
      assert a[0] == b[0];
      forall x ensures x in a[1..] <==> x in b[1..] {
        if x in a[1..] {
          var i :| 1 <= i < |a| && a[i] == x;
          assert x != a[0];
          assert x in b;
        }
        if x in b[1..] {
          var j :| 1 <= j < |b| && b[j] == x;
          assert x != b[0];
          assert x in a;
        }
      }
      SortedUnique(a[1..], b[1..], less);
      assert a == [a[0]] + a[1..] && b == [b[0]] + b[1..];
    }
  }

  /** The least element of a non-empty set, found by one pass over it. */
  method Least<T(==, !new)>(s: set<T>, less: (T, T) -> bool) returns (m: T)
    requires IsStrictTotalOrder(less)
    requires s != {}
    ensures IsLeast(m, s, less)
  {
    m :| m in s;
    var rest := s - {m};
    while rest != {}
      invariant rest <= s && m in s && m !in rest
      invariant forall x :: x in s && x !in rest && x != m ==> less(m, x)
      decreases |rest|
    {
      var x :| x in rest;
      if less(x, m) {
        m := x;
      }
      rest := rest - {x};
    }
  }

  /** Iteration over a B-tree set: its elements, least first. */
  method SortedElements<T(==, !new)>(s: set<T>, less: (T, T) -> bool) returns (r: seq<T>)
    requires IsStrictTotalOrder(less)
    ensures r == SortedBy(s, less)
  {
    r := [];
    var rest := s;
    while rest != {}
      invariant rest <= s
      invariant forall x :: x in r <==> x in s && x !in rest
      invariant StrictlySorted(r, less)
      invariant forall i, y :: 0 <= i < |r| && y in rest ==> less(r[i], y)
      decreases |rest|
    {
      var m := Least(rest, less);
      r := r + [m];
      rest := rest - {m};
    }
    SortedUnique(r, SortedBy(s, less), less);
  }
}
