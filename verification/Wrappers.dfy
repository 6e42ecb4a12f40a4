/** Result types, and facts of sequences and sets, shared by the modules of this project. */
module Wrappers {

  /** The std::optional of the source. */
  datatype Option<+T> = None | Some(value: T)

  /** A call that may throw: its value, or the message of the exception. */
  datatype Result<+T> = Ok(value: T) | Err(error: string)

  // ----- sequences and sets -----

  lemma Associate<T>(a: seq<T>, b: seq<T>, c: seq<T>)
    ensures a + (b + c) == a + b + c
  {}

  lemma AddNothing<T>(s: seq<T>)
    ensures s + [] == s && [] + s == s
  {}

  lemma SubsetSize<T>(a: set<T>, b: set<T>)
    requires a <= b
    ensures |a| <= |b|
  {
    assert b == a + (b - a);
  }
}
