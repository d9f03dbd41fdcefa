/** Small facts about finite sets used by the evaluators' cardinality tests. */
module SetFacts {

  /** A subset is no larger, and a subset of the same size is the whole set. */
  lemma SubsetCardinality<T>(a: set<T>, b: set<T>)
    requires a <= b
    ensures |a| <= |b|
    ensures |a| == |b| ==> a == b
  {
    assert b == a + (b - a);
    assert |b| == |a| + |b - a|;
  }

  /** A set has one element exactly when it has a member that every member equals. */
  lemma CardinalityOne<T>(s: set<T>)
    ensures |s| == 1 <==> exists x :: x in s && forall z :: z in s ==> z == x
  {
    if |s| == 1 {
      var x :| x in s;
      assert |s - {x}| == 0;
      assert s == {x};
    }
    if exists x :: x in s && forall z :: z in s ==> z == x {
      var x :| x in s && forall z :: z in s ==> z == x;
      assert s == {x};
    }
  }

  /** A set of two elements is a pair of distinct elements. */
  lemma CardinalityTwo<T>(s: set<T>) returns (x: T, y: T)
    requires |s| == 2
    ensures x != y && s == {x, y}
  {
    x :| x in s;
    assert |s - {x}| == 1;
    y :| y in s - {x};
    assert |s - {x} - {y}| == 0;
    assert s - {x} - {y} == {};
  }
}
