/** Walking through a set: Python's iteration order over sets and dictionaries is not part of the model. */
module Sets {

  method Pick<T(==)>(s: set<T>) returns (x: T)
    requires s != {}
    ensures x in s
  {
    x :| x in s;
  }

  /** The members of a set in some order. */
  method Listed<T(==)>(s: set<T>) returns (r: seq<T>)
    ensures forall x :: x in r <==> x in s
  {
    r := [];
    var rest := s;
    while rest != {}
      invariant forall x :: x in r || x in rest <==> x in s
      decreases rest
    {
      var x := Pick(rest);
      r, rest := r + [x], rest - {x};
    }
  }
}
