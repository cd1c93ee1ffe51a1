/** Go's []byte as a sequence of bytes, and the byte form of an ASCII string literal. */
module Bytes {
  newtype byte = x: int | 0 <= x < 256

  type Buffer = seq<byte>

  predicate Ascii(s: string) {
    forall i | 0 <= i < |s| :: s[i] as int < 128
  }

  /** []byte(s) for an ASCII string. */
  function FromAscii(s: string): (b: Buffer)
    requires Ascii(s)
    ensures |b| == |s| && forall i | 0 <= i < |s| :: b[i] as int == s[i] as int
  {
    seq(|s|, i requires 0 <= i < |s| => s[i] as int as byte)
  }

  /** Concatenation of a sequence of buffers, in order. */
  function Concat(parts: seq<Buffer>): Buffer
    decreases |parts|
  {
    if parts == [] then [] else Concat(parts[..|parts| - 1]) + parts[|parts| - 1]
  }
}
