/** Iteration over a `HashSet` or over the keys of a `HashMap`: every element
    once, in an order the model leaves open. */
module Collections {

  predicate Distinct<T(==)>(q: seq<T>)
  {
    forall i, j :: 0 <= i < j < |q| ==> q[i] != q[j]
  }

  /** Lists the elements of `s` in some order, each exactly once. */
  method Enumerate<T(==)>(s: set<T>) returns (q: seq<T>)
    ensures |q| == |s|
    ensures forall x :: x in q <==> x in s
    ensures Distinct(q)
  {
    q := [];
    var rest := s;
    while rest != {}
      invariant rest <= s
      invariant |q| + |rest| == |s|
      invariant forall x :: x in q <==> x in s && x !in rest
      invariant Distinct(q)
      decreases rest
    {
      var x :| x in rest;
      q := q + [x];
      rest := rest - {x};
    }
  }
}
