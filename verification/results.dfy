/** Failure-carrying values shared by the whole model.
    A remote call in the reporter settles exactly once, either with a value
    or with one error value; `Result` is that settlement. */
module Results {

  /** A value that may be absent (a JavaScript property that may be undefined). */
  datatype Option<+T> = None | Some(value: T)

  /** The settlement of one asynchronous call: fulfilled with a value or rejected with an error. */
  datatype Result<+T, +E> = Success(value: T) | Failure(error: E)

  /** The settlement of a call whose fulfilment carries no value. */
  datatype Outcome<+E> = Pass | Fail(error: E)
}

/** Sequence helpers shared by the model. */
module Seqs {

  /** `s.map(f)`: one result per element, in order. */
  function MapSeq<A, B>(s: seq<A>, f: A -> B): (r: seq<B>)
    ensures |r| == |s|
    ensures forall i :: 0 <= i < |s| ==> r[i] == f(s[i])
  {
    seq(|s|, i requires 0 <= i < |s| => f(s[i]))
  }
}
