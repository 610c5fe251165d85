/**
 * Go strings are byte strings.  In this model a Go string is a `string`
 * whose characters stand for those bytes, and a byte slice is a `seq<byte>`.
 */
module Bytes {
  type byte = x: int | 0 <= x < 256

  /** Go's conversion `string(b)`: one character per byte. */
  function StringOf(b: seq<byte>): (s: string)
    ensures |s| == |b|
    ensures forall i :: 0 <= i < |b| ==> s[i] as int == b[i]
  {
    seq(|b|, i requires 0 <= i < |b| => b[i] as char)
  }

  /** A string all of whose characters are single bytes. */
  predicate IsByteString(s: string) {
    forall i :: 0 <= i < |s| ==> s[i] as int < 256
  }

  /** Go's conversion `[]byte(s)` on a byte string. */
  function BytesOf(s: string): (b: seq<byte>)
    requires IsByteString(s)
    ensures StringOf(b) == s
  {
    seq(|s|, i requires 0 <= i < |s| => s[i] as int)
  }

  lemma BytesOfStringOf(b: seq<byte>)
    ensures IsByteString(StringOf(b)) && BytesOf(StringOf(b)) == b
  {
  }
}
