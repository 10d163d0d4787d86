/** Small failure-carrying datatypes shared by every module. */
module Wrappers {

  datatype Option<+T> = None | Some(value: T)

  /** The outcome of an operation that yields nothing but may fail with a message
      (a Go function whose only result is an `error`). */
  datatype Outcome = Pass | Fail(message: string)

  /** A value or an error message (a Go `(T, error)` pair). */
  datatype Result<+T> = Ok(value: T) | Err(message: string)

  /** The first element of a script of inputs, or `default` once the script is used up. */
  function HeadOr<T>(s: seq<T>, default: T): (r: T)
    ensures s != [] ==> r == s[0]
    ensures s == [] ==> r == default
  {
    if s == [] then default else s[0]
  }

  /** A script of inputs once its first element has been consumed. */
  function Tail<T>(s: seq<T>): (r: seq<T>)
    ensures s != [] ==> |r| == |s| - 1 && r == s[1..]
    ensures s == [] ==> r == []
  {
    if s == [] then [] else s[1..]
  }

  /** A script of inputs once `n` elements have been consumed. */
  function Drop<T>(s: seq<T>, n: nat): (r: seq<T>)
    ensures n <= |s| ==> r == s[n..]
    ensures n > |s| ==> r == []
  {
    if n <= |s| then s[n..] else []
  }
}
