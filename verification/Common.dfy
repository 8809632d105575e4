/** Vocabulary shared by every module of the model. */
module Common {
  datatype Option<+T> = None | Some(value: T)

  /** One octet of a packet, a stream or a header block. */
  type byte = x: int | 0 <= x < 256

  type Bytes = seq<byte>

  const CR: byte := 13
  const LF: byte := 10
  const CRLF: Bytes := [13, 10]
  const SIZE_MAX := 0xFFFF_FFFF_FFFF_FFFF

  /** The octets of an ASCII text. */
  function Ascii(s: string): (t: Bytes)
    requires forall i :: 0 <= i < |s| ==> s[i] as int < 128
    ensures |t| == |s| && forall i :: 0 <= i < |s| ==> t[i] == s[i] as int
  {
    seq(|s|, i requires 0 <= i < |s| => s[i] as int)
  }

  /** The smaller of two lengths, as `std::min` on sizes. */
  function Min(a: nat, b: nat): nat {
    if a <= b then a else b
  }
}
