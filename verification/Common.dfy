module Common {
  datatype Option<+T> = None | Some(value: T)

  datatype Side = Buy | Sell

  /** Some element of a non-empty set. */
  method Pick<T(==)>(s: set<T>) returns (x: T)
    requires s != {}
    ensures x in s
  {
    x :| x in s;
  }
}
