/** Option and Result, the shapes every module uses for nil values and error returns. */
module Wrappers {
  datatype Option<T> = None | Some(value: T)

  datatype Result<T, E> = Ok(value: T) | Err(error: E)

  /** A non-empty set has an element; lets a method pick one with `:|`. */
  lemma NonEmptyHasElement<T>(s: set<T>)
    requires s != {}
    ensures exists k :: k in s
  {
    var k :| k in s;
  }
}
