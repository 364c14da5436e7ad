/** Optional values, results, and listings of finite sets. */
module Wrappers {
  datatype Option<+T> = None | Some(value: T)

  datatype Result<+T, +E> = Ok(value: T) | Err(error: E)

  lemma SomeListing<T>(elements: set<T>) returns (order: seq<T>)
    ensures forall i, j :: 0 <= i < j < |order| ==> order[i] != order[j]
    ensures forall x :: x in order <==> x in elements
  {
    if elements == {} {
      order := [];
    } else {
      var x :| x in elements;
      var rest := SomeListing(elements - {x});
      order := [x] + rest;
    }
  }
}
