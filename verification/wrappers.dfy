/** Two plain wrappers: Option is a Java reference that may be null, and
    Result is the outcome of a call that either returns or throws. */
module Wrappers {

  /** A possibly-null Java reference: None stands for null. */
  datatype Option<+T> = None | Some(value: T)

  /** The outcome of a call that either returns normally or throws. */
  datatype Result<+R, +E> = Success(value: R) | Failure(error: E)

  /** True iff no element of `s` is null. */
  predicate NoneMissing<T>(s: seq<Option<T>>)
  {
    forall i :: 0 <= i < |s| ==> s[i].Some?
  }

  /** The elements of a null-free sequence, in order. */
  function Unwrap<T>(s: seq<Option<T>>): (r: seq<T>)
    requires NoneMissing(s)
    ensures |r| == |s|
    ensures forall i :: 0 <= i < |s| ==> s[i] == Some(r[i])
  {
    seq(|s|, i requires 0 <= i < |s| => s[i].value)
  }
}
