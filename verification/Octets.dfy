/** Bytes as integers, shared by the codecs. */
module Octets {
  type Byte = x: int | 0 <= x < 256

  /** The decimal digits of `n`. */
  function Itoa(n: nat): (s: seq<Byte>)
    ensures |s| > 0 && forall k :: 0 <= k < |s| ==> s[k] != 0
  {
    if n < 10 then [48 + n] else Itoa(n / 10) + [48 + n % 10]
  }
}
