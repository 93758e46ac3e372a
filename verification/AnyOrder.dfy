/** Iteration over a set in an unspecified order. */
module AnyOrder {
  method PickAny<T(==)>(s: set<T>) returns (x: T)
    requires s != {}
    ensures x in s
  {
    x :| x in s;
  }
}
