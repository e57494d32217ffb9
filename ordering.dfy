/**
 * Python's `sorted(some_set, reverse=True)` over a strict total order: the
 * distinct elements of a set listed from greatest to least.
 */
module Ordering {

  ghost predicate StrictTotalOrder<T(!new)>(lt: (T, T) -> bool) {
    && (forall a :: !lt(a, a))
    && (forall a, b, c :: lt(a, b) && lt(b, c) ==> lt(a, c))
    && (forall a, b :: a != b ==> lt(a, b) || lt(b, a))
  }

  /** Strictly decreasing: every element is greater than every later one. */
  ghost predicate Descending<T>(xs: seq<T>, lt: (T, T) -> bool) {
    forall i, j :: 0 <= i < j < |xs| ==> lt(xs[j], xs[i])
  }

  predicate IntLess(a: int, b: int) {
    a < b
  }

  lemma IntLessIsOrder()
    ensures StrictTotalOrder(IntLess)
  {
  }

  /** Every non-empty set has a greatest element. */
  lemma {:induction false} MaxExists<T(!new)>(s: set<T>, lt: (T, T) -> bool)
    requires s != {} && StrictTotalOrder(lt)
    ensures exists m :: m in s && forall x :: x in s ==> !lt(m, x)
    decreases |s|
  {
    var x :| x in s;
    if s == {x} {
      assert forall y :: y in s ==> y == x;
      assert !lt(x, x);
    } else {
      var rest := s - {x};
      assert |rest| < |s|;
      MaxExists(rest, lt);
      var m :| m in rest && forall y :: y in rest ==> !lt(m, y);
      var top := if lt(x, m) then m else x;
      forall y | y in s ensures !lt(top, y) {
        assert y == x || y in rest;
        MaxStep(x, m, y, lt);
      }
      assert top in s;
    }
  }

  /** The greater of `x` and the greatest `m` of the rest is greatest. */
  lemma MaxStep<T(!new)>(x: T, m: T, y: T, lt: (T, T) -> bool)
    requires StrictTotalOrder(lt)
    requires y == x || !lt(m, y)
    ensures !lt(if lt(x, m) then m else x, y)
  {
  }

  /** The elements of `s`, greatest first. */
  function SortSetDesc<T(==,!new)>(s: set<T>, lt: (T, T) -> bool): (r: seq<T>)
    requires StrictTotalOrder(lt)
    ensures Descending(r, lt)
    ensures forall x :: x in r <==> x in s
    ensures |r| == |s|
    decreases |s|
  {
    if s == {} then []
    else
      MaxExists(s, lt);
      var m :| m in s && forall x :: x in s ==> !lt(m, x);
      var rest := SortSetDesc(s - {m}, lt);
      [m] + rest
  }

  /** A strictly decreasing listing of a set is the only one: two of them
      with the same elements are equal. */
  lemma {:induction false} DescendingUnique<T(!new)>(a: seq<T>, b: seq<T>, lt: (T, T) -> bool)
    requires StrictTotalOrder(lt)
    requires Descending(a, lt) && Descending(b, lt)
    requires forall x :: x in a <==> x in b
    ensures a == b
  {
    if a != [] {
      assert a[0] in b;
    }
    if b != [] {
      assert b[0] in a;
    }
    if a != [] && b != [] {
      assert a[0] == b[0];
      assert a == [a[0]] + a[1..] && b == [b[0]] + b[1..];
      forall x ensures x in a[1..] <==> x in b[1..] {
        if x in a[1..] {
          var i :| 0 <= i < |a| - 1 && a[1..][i] == x;
          assert a[i + 1] == x && lt(x, a[0]);
          assert x in b && x != b[0];
        }
        if x in b[1..] {
          var i :| 0 <= i < |b| - 1 && b[1..][i] == x;
          assert b[i + 1] == x && lt(x, b[0]);
          assert x in a && x != a[0];
        }
      }
      DescendingUnique(a[1..], b[1..], lt);
    }
  }

  /** A strictly decreasing sequence lists no element twice. */
  lemma DescendingDistinct<T(!new)>(xs: seq<T>, lt: (T, T) -> bool)
    requires StrictTotalOrder(lt) && Descending(xs, lt)
    ensures forall i, j :: 0 <= i < j < |xs| ==> xs[i] != xs[j]
  {
  }
}
