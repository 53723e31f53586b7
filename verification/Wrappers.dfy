/** The result of something that may not be possible, and a law of sequences that the verifier needs spelled out. */
module Wrappers {
  datatype Option<T> = None | Some(value: T)

  lemma ConcatAssociates<T>(a: seq<T>, b: seq<T>, c: seq<T>)
    ensures a + (b + c) == (a + b) + c
  {
  }
}
