/** Going through a set in some order. */
module Sets {

  /** Python's `list(s)`: every member once. */
  method Listed<T(==)>(s: set<T>) returns (l: seq<T>)
    ensures |l| == |s| && forall x :: x in l <==> x in s
    ensures forall i, j :: 0 <= i < j < |l| ==> l[i] != l[j]
  {
    l := [];
    var left := s;
    while left != {}
      invariant left <= s && |l| + |left| == |s|
      invariant forall x :: x in l <==> x in s && x !in left
      invariant forall i, j :: 0 <= i < j < |l| ==> l[i] != l[j]
      decreases |left|
    {
      var x :| x in left;
      l, left := l + [x], left - {x};
    }
  }
}
