/** Sorting a set, as Python's sorted does with distinct values. */
module Sorting {
  ghost predicate IsOrder<T(!new)>(less: (T, T) -> bool) {
    (forall a, b :: less(a, b) ==> !less(b, a)) &&
    (forall a, b, c :: less(a, b) && less(b, c) ==> less(a, c)) &&
    (forall a, b :: a == b || less(a, b) || less(b, a))
  }

  predicate Ascending<T>(s: seq<T>, less: (T, T) -> bool) {
    forall i, j | 0 <= i < j < |s| :: less(s[i], s[j])
  }

  lemma {:induction false} HasFirst<T(!new)>(s: set<T>, less: (T, T) -> bool)
    requires IsOrder(less) && s != {}
    ensures exists x :: x in s && forall y | y in s :: !less(y, x)
  {
    var x :| x in s;
    var rest := s - {x};
    if rest != {} {
      HasFirst(rest, less);
      var y :| y in rest && forall z | z in rest :: !less(z, y);
      var first := if less(y, x) then y else x;
      assert forall z | z in s :: z == x || z in rest;
      assert first in s && forall z | z in s :: !less(z, first);
    } else {
      assert s == {x};
    }
  }

  function Sorted<T(!new)>(s: set<T>, less: (T, T) -> bool): (r: seq<T>)
    requires IsOrder(less)
    ensures |r| == |s| && Ascending(r, less)
    ensures forall x :: x in r <==> x in s
  {
    if s == {} then []
    else
      HasFirst(s, less);
      var x :| x in s && forall y | y in s :: !less(y, x);
      [x] + Sorted(s - {x}, less)
  }

  /** Python compares strings by their first difference, and a proper prefix is the smaller. */
  predicate Before(a: string, b: string) {
    b != [] && (a == [] || a[0] < b[0] || (a[0] == b[0] && Before(a[1..], b[1..])))
  }

  lemma {:induction false} BeforeIsAsymmetric(a: string, b: string)
    requires Before(a, b)
    ensures !Before(b, a)
  {
    if a != [] && a[0] == b[0] {
      BeforeIsAsymmetric(a[1..], b[1..]);
    }
  }

  lemma {:induction false} BeforeIsTransitive(a: string, b: string, c: string)
    requires Before(a, b) && Before(b, c)
    ensures Before(a, c)
  {
    if a != [] && a[0] == b[0] == c[0] {
      BeforeIsTransitive(a[1..], b[1..], c[1..]);
    }
  }

  lemma {:induction false} BeforeIsTotal(a: string, b: string)
    ensures a == b || Before(a, b) || Before(b, a)
  {
    if a != [] && b != [] && a[0] == b[0] {
      BeforeIsTotal(a[1..], b[1..]);
      assert a == [a[0]] + a[1..] && b == [b[0]] + b[1..];
    }
  }

  lemma BeforeIsOrder()
    ensures IsOrder(Before)
  {
    forall a, b | Before(a, b) ensures !Before(b, a) { BeforeIsAsymmetric(a, b); }
    forall a, b, c | Before(a, b) && Before(b, c) ensures Before(a, c) { BeforeIsTransitive(a, b, c); }
    forall a, b ensures a == b || Before(a, b) || Before(b, a) { BeforeIsTotal(a, b); }
  }

  predicate Smaller(a: nat, b: nat) {
    a < b
  }
}
