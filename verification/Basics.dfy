/** Small helpers shared by every component. */
module Basics {
  datatype Option<+T> = None | Some(value: T)

  function Min(a: int, b: int): int {
    if a <= b then a else b
  }

  /** `order` lists every element of `s` exactly once. */
  ghost predicate Enumerates<T(!new)>(order: seq<T>, s: set<T>) {
    && (forall x :: x in order <==> x in s)
    && (forall i, j :: 0 <= i < j < |order| ==> order[i] != order[j])
  }

  /** One pass of `for x := range m`: an arbitrary order, chosen afresh at every call. */
  method RangeOver<T(==, !new)>(s: set<T>) returns (order: seq<T>)
    ensures Enumerates(order, s)
  {
    order := [];
    var todo := s;
    while todo != {}
      invariant todo <= s
      invariant forall x :: x in order <==> x in s - todo
      invariant forall i, j :: 0 <= i < j < |order| ==> order[i] != order[j]
      decreases todo
    {
      var x :| x in todo;
      assert x !in order;
      assert forall y :: y in order + [x] <==> y in order || y == x;
      order := order + [x];
      todo := todo - {x};
    }
  }

  lemma SplitLast<T>(xs: seq<T>, n: nat)
    requires n < |xs|
    ensures xs[..n+1] == xs[..n] + [xs[n]]
    ensures n + 1 == |xs| ==> xs[..n+1] == xs
  {
  }

  lemma Member<T>(s: set<T>) returns (x: T)
    requires s != {}
    ensures x in s
  {
    x :| x in s;
  }

  lemma {:induction false} EnumerationExists<T(!new)>(s: set<T>) returns (order: seq<T>)
    ensures Enumerates(order, s)
    decreases s
  {
    if s == {} {
      order := [];
    } else {
      var x :| x in s;
      var rest := EnumerationExists(s - {x});
      assert x !in rest;
      order := rest + [x];
      assert forall y :: y in order <==> y in rest || y == x;
    }
  }

  lemma {:induction false} EnumerationSize<T(!new)>(order: seq<T>, s: set<T>)
    requires Enumerates(order, s)
    ensures |order| == |s|
    decreases order
  {
    if order == [] {
      assert forall x :: x in s ==> x in order;
      assert s == {};
    } else {
      var front, last := order[..|order|-1], order[|order|-1];
      assert forall x :: x in order <==> x in front || x == last;
      assert last !in front;
      EnumerationSize(front, s - {last});
    }
  }
}
