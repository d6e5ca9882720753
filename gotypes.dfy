/** The Go value types the relay works with: bytes, 64-bit integers and
    the conversion of a byte slice to a string. */
module GoTypes {

  /** A Go `uint8`. */
  type byte = x: int | 0 <= x < 256

  const Int64Min: int := -0x8000_0000_0000_0000
  const Int64Max: int := 0x7fff_ffff_ffff_ffff

  /** A Go `int64`, the type of Unix timestamps and of `maxSessionTimeSecs`. */
  type int64 = x: int | Int64Min <= x <= Int64Max

  /** Two's-complement wrap-around of an integer into `int64`. */
  function Wrap64(x: int): (r: int64)
    ensures (r - x) % 0x1_0000_0000_0000_0000 == 0
    ensures Int64Min <= x <= Int64Max ==> r == x
  {
    var m := (x - Int64Min) % 0x1_0000_0000_0000_0000;
    m + Int64Min
  }

  /** Go's `a - b` on `int64`, which wraps on overflow. */
  function Sub64(a: int64, b: int64): (r: int64)
    ensures Int64Min <= a - b <= Int64Max ==> r == a - b
    ensures a - b > Int64Max ==> r == a - b - 0x1_0000_0000_0000_0000
    ensures a - b < Int64Min ==> r == a - b + 0x1_0000_0000_0000_0000
  {
    Wrap64(a - b)
  }

  /** Go's `string(b)` for a byte slice: a Go string is a byte sequence, so
      the model renders each byte as the character with that code. */
  function BytesToString(b: seq<byte>): (s: string)
    ensures |s| == |b|
    ensures forall i :: 0 <= i < |b| ==> s[i] as int == b[i]
  {
    seq(|b|, i requires 0 <= i < |b| => b[i] as char)
  }

}
