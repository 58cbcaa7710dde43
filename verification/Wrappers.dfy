/** What the modules of the model share: bytes, the optional value (the source's `undefined`), and the
    associativity of concatenation as a hint. */
module Wrappers {

  newtype Byte = b: int | 0 <= b < 256

  datatype Option<+T> = None | Some(value: T) {
    function GetOr(default: T): T {
      match this
      case Some(v) => v
      case None => default
    }
  }

  lemma Regroup<T>(a: seq<T>, b: seq<T>, c: seq<T>)
    ensures a + (b + c) == a + b + c
  {
  }
}
