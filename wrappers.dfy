/** Option and Result, the model's stand-ins for Go's nil values and `error` returns. */
module Wrappers {

  datatype Option<+T> = None | Some(value: T)

  datatype Result<+T, +E> = Success(value: T) | Failure(error: E)
}

/** Go's `byte` and `[]byte`. */
module Octets {

  newtype byte = b: int | 0 <= b < 256

  type Bytes = seq<byte>

  /** Go's `string(b)` conversion: a Go string is a byte string, so each byte
      becomes the character with the same code. */
  function AsString(b: Bytes): (s: string)
    ensures |s| == |b|
    ensures forall i :: 0 <= i < |b| ==> s[i] as int == b[i] as int
  {
    seq(|b|, i requires 0 <= i < |b| => (b[i] as int) as char)
  }
}
