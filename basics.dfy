/** Shared vocabulary of the model: bytes, optional values and library call outcomes. */
module Basics {

  /** A Go `byte`. */
  type byte = bv8

  /** A Go `[]byte` (a nil slice and an empty slice are not distinguished). */
  type Bytes = seq<byte>

  datatype Option<+T> = None | Some(value: T)

  /** The `(value, err)` pair returned by a library call: `Failure` carries the error's message. */
  datatype Result<+T> = Success(value: T) | Failure(error: string)

  /** `n` zero bytes, as `bytes.Repeat([]byte{0}, n)` builds them. */
  function Zeros(n: nat): (z: Bytes)
    ensures |z| == n
    ensures forall i :: 0 <= i < n ==> z[i] == 0
  {
    seq(n, _ => 0)
  }
}
