/** Failure-carrying values shared by every module of the model. */
module Wrappers {

  /** A value that may be absent: C#'s `null` for reference types and `T?`. */
  datatype Option<+T> = None | Some(value: T) {
    /** The `??` operator: the value when present, the default otherwise. */
    function GetOr(default: T): T {
      match this
      case Some(v) => v
      case None => default
    }
  }

  /** The outcome of a .NET call that either returns normally or throws. */
  datatype Outcome<+T> = Throws | Produced(value: T)

  /** A success value or an error value. */
  datatype Result<+R, +E> = Ok(value: R) | Err(error: E)

  // Sequence identities, stated once so that proofs can cite them instead of re-deriving them.

  lemma AppendAssoc<T>(a: seq<T>, b: seq<T>, c: seq<T>)
    ensures a + b + c == a + (b + c)
  {
  }

  lemma AppendEmpty<T>(s: seq<T>)
    ensures s + [] == s && [] + s == s
  {
  }

  lemma ConsAppend<T>(s: seq<T>, t: seq<T>)
    requires s != []
    ensures [s[0]] + (s[1..] + t) == s + t
    ensures (s + t)[0] == s[0] && (s + t)[1..] == s[1..] + t
  {
  }
}
