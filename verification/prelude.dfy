/** Shared vocabulary: bytes (Go's `byte` and byte strings) and an optional value. */
module Prelude {

  /** One octet, Go's `byte`. */
  newtype byte = x: int | 0 <= x < 256

  /** A Go `string` or `[]byte`: a sequence of octets. */
  type Bytes = seq<byte>

  datatype Option<+T> = None | Some(value: T)

  /** The bytes of an ASCII text, for writing literal byte strings. */
  function Ascii(s: string): (r: Bytes)
    requires forall i :: 0 <= i < |s| ==> s[i] < 128 as char
    ensures |r| == |s|
    ensures forall i :: 0 <= i < |s| ==> r[i] as int == s[i] as int
  {
    seq(|s|, i requires 0 <= i < |s| => s[i] as int as byte)
  }
}
