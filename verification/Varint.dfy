/** QUIC variable-length integers (section 16 of RFC 9000). */
module Varint {
  import opened Common

  const LIMIT := 0x4000_0000_0000_0000       // 2^62
  const WORD := 0x1_0000_0000_0000_0000      // 2^64

  // ---- big-endian numbers -----------------------------------------------------

  function Value(s: Bytes): nat {
    if s == [] then 0 else 256 * Value(s[..|s| - 1]) + s[|s| - 1]
  }

  function Octets(v: nat, n: nat): (s: Bytes)
    ensures |s| == n
  {
    if n == 0 then [] else Octets(v / 256, n - 1) + [v % 256]
  }

  function Pow256(n: nat): (p: nat)
    ensures p > 0
  {
    if n == 0 then 1 else 256 * Pow256(n - 1)
  }

  lemma Powers()
    ensures Pow256(0) == 1 && Pow256(1) == 0x100 && Pow256(3) == 0x100_0000
    ensures Pow256(7) == 0x100_0000_0000_0000
  {
    assert Pow256(2) == 0x1_0000;
    assert Pow256(5) == 0x100_0000_0000;
  }

  lemma {:induction false} ValueOctets(v: nat, n: nat)
    requires v < Pow256(n)
    ensures Value(Octets(v, n)) == v
  {
    if n > 0 {
      ValueOctets(v / 256, n - 1);
      assert Octets(v, n)[..n - 1] == Octets(v / 256, n - 1);
    }
  }

  lemma Scale(a: nat, p: nat, r: nat)
    ensures 256 * (a * p + r) == a * (256 * p) + 256 * r
  {
  }

  lemma {:induction false} ValueFirst(s: Bytes)
    requires s != []
    ensures Value(s) == s[0] * Pow256(|s| - 1) + Value(s[1..]) && Value(s[1..]) < Pow256(|s| - 1)
  {
    if |s| == 1 {
      assert s[..0] == [];
    } else {
      var t, last := s[..|s| - 1], s[|s| - 1];
      ValueFirst(t);
      assert s[1..][..|s| - 2] == t[1..];
      Scale(s[0], Pow256(|s| - 2), Value(t[1..]));
    }
  }

  // ---- encoding and decoding --------------------------------------------------

  /** How many bytes a first byte announces. */
  function Announced(first: byte): nat {
    if first < 64 then 1 else if first < 128 then 2 else if first < 192 then 4 else 8
  }

  datatype Decoded = Decoded(value: nat, read: nat)

  /** The number at the front of `data`; nothing is read when `data` is too short. */
  function Decode(data: Bytes): (d: Decoded)
    ensures d.read <= |data|
  {
    if data == [] || |data| < Announced(data[0]) then Decoded(0, 0)
    else Decoded(Value([data[0] % 64] + data[1..Announced(data[0])]), Announced(data[0]))
  }

  function Size(v: nat): nat {
    if v <= 0x3F then 1 else if v <= 0x3FFF then 2 else if v <= 0x3FFF_FFFF then 4 else 8
  }

  function Tag(n: nat): (t: byte)
    ensures t < 4
  {
    if n == 1 then 0 else if n == 2 then 1 else if n == 4 then 2 else 3
  }

  function Encode(v: nat): (s: Bytes)
    requires v < WORD
    ensures |s| == Size(v)
  {
    var o := Octets(v, Size(v));
    [64 * Tag(Size(v)) + o[0] % 64] + o[1..]
  }

  /** Nothing but the announced bytes is looked at. */
  lemma DecodeLocal(data: Bytes, suffix: Bytes)
    requires Decode(data).read > 0
    ensures Decode(data + suffix) == Decode(data)
  {
    var n := Announced(data[0]);
    assert (data + suffix)[1..n] == data[1..n];
  }

  /** Decoded values fit 62 bits, and each length holds what it can. */
  lemma DecodeBound(data: Bytes)
    ensures Decode(data).value < LIMIT
    ensures Decode(data).read > 0 ==> Size(Decode(data).value) <= Decode(data).read
  {
    if Decode(data).read > 0 {
      var n := Announced(data[0]);
      ValueFirst([data[0] % 64] + data[1..n]);
      Powers();
    }
  }

  lemma Packed(v: nat)
    requires v < LIMIT
    ensures Octets(v, Size(v))[0] < 64 && Value(Octets(v, Size(v))) == v
  {
    Powers();
    assert Pow256(2) == 0x1_0000 && Pow256(4) == 0x1_0000_0000 && Pow256(8) == WORD;
    ValueOctets(v, Size(v));
    ValueFirst(Octets(v, Size(v)));
  }

  /** Decoding an encoded value followed by anything gives back the value and its length. */
  lemma RoundTrip(v: nat, suffix: Bytes)
    requires v < LIMIT
    ensures Decode(Encode(v) + suffix) == Decoded(v, Size(v))
  {
    Packed(v);
    var o, e := Octets(v, Size(v)), Encode(v);
    assert [e[0] % 64] + e[1..] == o;
    assert Announced(e[0]) == Size(v);
    assert e[1..Size(v)] == e[1..];
    DecodeLocal(e, suffix);
  }

  /** The value survives exactly when it fits 62 bits. */
  lemma RoundTripIff(v: nat)
    requires v < WORD
    ensures Decode(Encode(v)).value == v <==> v < LIMIT
  {
    DecodeBound(Encode(v));
    if v < LIMIT {
      RoundTrip(v, []);
      assert Encode(v) + [] == Encode(v);
    }
  }

  /** No byte string that decodes to the value is shorter than its encoding. */
  lemma Shortest(w: Bytes)
    requires Decode(w).read == |w| > 0
    ensures Decode(w).value < LIMIT && |Encode(Decode(w).value)| <= |w|
  {
    DecodeBound(w);
  }

  /** No encoding is the beginning of another. */
  lemma PrefixFree(a: nat, b: nat)
    requires a < LIMIT && b < LIMIT && Encode(a) <= Encode(b)
    ensures a == b
  {
    var rest := Encode(b)[|Encode(a)|..];
    assert Encode(b) == Encode(a) + rest && Encode(b) + [] == Encode(b);
    RoundTrip(a, rest);
    RoundTrip(b, []);
  }

  lemma OctetsFour(a: nat, b: nat, c: nat, d: nat)
    requires c == d / 256 && b == c / 256 && a == b / 256
    ensures Octets(b, 2) == [a % 256, b % 256]
    ensures Octets(d, 4) == [a % 256, b % 256, c % 256, d % 256]
  {
    assert Octets(a, 1) == [a % 256];
    assert Octets(b, 2) == [a % 256, b % 256];
    assert Octets(c, 3) == [a % 256, b % 256, c % 256];
  }

  lemma {:induction false} OctetsAppend(v: nat, w: nat, k: nat)
    requires w == v / 256 / 256 / 256 / 256
    ensures Octets(v, k + 4) == Octets(w, k) + Octets(v, 4)
  {
    var c := v / 256;
    var b := c / 256;
    var a := b / 256;
    OctetsFour(a, b, c, v);
    assert Octets(a, k + 1) == Octets(w, k) + [a % 256];
    assert Octets(b, k + 2) == Octets(w, k) + [a % 256, b % 256];
    assert Octets(c, k + 3) == Octets(w, k) + [a % 256, b % 256, c % 256];
  }

  lemma EncodeShort(v: nat)
    requires v < WORD
    ensures Size(v) == 1 ==> Encode(v) == [v]
    ensures Size(v) == 2 ==> v / 256 < 64 && Encode(v) == [0x40 + v / 256, v % 256]
  {
    assert Octets(v, 1) == [v % 256];
    assert Octets(v / 256, 1) == [v / 256 % 256];
    assert Octets(v, 2) == [v / 256 % 256, v % 256];
  }

  lemma EncodeFour(a: nat, b: nat, c: nat, d: nat)
    requires c == d / 256 && b == c / 256 && a == b / 256 && Size(d) == 4 && d < WORD
    ensures a < 64 && Encode(d) == [0x80 + a, b % 256, c % 256, d % 256]
  {
    OctetsFour(a, b, c, d);
  }

  lemma EncodeLong(b7: nat, b6: nat, b5: nat, b4: nat, b3: nat, b2: nat, b1: nat, v: nat)
    requires b1 == v / 256 && b2 == b1 / 256 && b3 == b2 / 256 && b4 == b3 / 256 && Size(v) == 8 && v < WORD
    requires b5 == b4 / 256 && b6 == b5 / 256 && b7 == b6 / 256
    ensures Encode(v) == [0xC0 + b7 % 64, b6 % 256, b5 % 256, b4 % 256, b3 % 256, b2 % 256, b1 % 256, v % 256]
  {
    OctetsFour(b3, b2, b1, v);
    OctetsFour(b7, b6, b5, b4);
    OctetsAppend(v, b4, 4);
  }

  /** Writes the encoding into a buffer and returns its length; `x / 256` is a shift by eight bits. */
  method EncodeInto(v: nat, out: array<byte>) returns (n: nat)
    requires v < WORD && out.Length >= Size(v)
    modifies out
    ensures n == Size(v) && out[..n] == Encode(v)
    ensures out[n..] == old(out[n..])
  {
    n := Size(v);
    if n == 1 {
      EncodeShort(v);
      out[0] := v;
    } else if n == 2 {
      EncodeShort(v);
      out[0] := 0x40 + v / 256;
      out[1] := v % 256;
    } else {
      var b1 := v / 256;
      var b2 := b1 / 256;
      var b3 := b2 / 256;
      if n == 4 {
        EncodeFour(b3, b2, b1, v);
        out[0] := 0x80 + b3;
        out[1] := b2 % 256;
        out[2] := b1 % 256;
        out[3] := v % 256;
      } else {
        EncodeEight(v, b1, b2, b3, out);
      }
    }
  }

  method EncodeEight(v: nat, b1: nat, b2: nat, b3: nat, out: array<byte>)
    requires v < WORD && Size(v) == 8 && out.Length >= 8 && b1 == v / 256 && b2 == b1 / 256 && b3 == b2 / 256
    modifies out
    ensures out[..8] == Encode(v)
    ensures out[8..] == old(out[8..])
  {
    var b4 := b3 / 256;
    var b5 := b4 / 256;
    var b6 := b5 / 256;
    var b7 := b6 / 256;
    EncodeLong(b7, b6, b5, b4, b3, b2, b1, v);
    out[0] := 0xC0 + b7 % 64;
    out[1] := b6 % 256;
    out[2] := b5 % 256;
    out[3] := b4 % 256;
    out[4] := b3 % 256;
    out[5] := b2 % 256;
    out[6] := b1 % 256;
    out[7] := v % 256;
  }

  lemma ValueMore(s: Bytes, b: byte)
    ensures Value(s + [b]) == 256 * Value(s) + b
  {
    assert (s + [b])[..|s|] == s;
  }

  lemma ValueOfTwo(a: byte, b: byte)
    ensures Value([a, b]) == 256 * a + b
  {
    ValueMore([], a);
    ValueMore([a], b);
    assert [] + [a] == [a] && [a] + [b] == [a, b];
  }

  lemma ValueOfFour(a: byte, b: byte, c: byte, d: byte)
    ensures Value([a, b, c, d]) == 0x100_0000 * a + 0x1_0000 * b + 0x100 * c + d
  {
    ValueOfTwo(a, b);
    ValueMore([a, b], c);
    ValueMore([a, b, c], d);
    assert [a, b] + [c] == [a, b, c] && [a, b, c] + [d] == [a, b, c, d];
  }

  lemma ValueOfEight(s: Bytes)
    requires |s| == 8
    ensures Value(s) == 0x1_0000_0000 * Value(s[..4]) + Value(s[4..])
  {
    var t := s[..4];
    ValueMore(t, s[4]);
    ValueMore(t + [s[4]], s[5]);
    ValueMore(t + [s[4]] + [s[5]], s[6]);
    ValueMore(t + [s[4]] + [s[5]] + [s[6]], s[7]);
    assert t + [s[4]] + [s[5]] + [s[6]] + [s[7]] == s;
    ValueOfFour(s[4], s[5], s[6], s[7]);
    assert s[4..] == [s[4], s[5], s[6], s[7]];
  }

  /** The examples of section A.1 of RFC 9000. */
  lemma Samples()
    ensures Decode([0x9d, 0x7f, 0x3e, 0x7d]) == Decoded(494878333, 4)
    ensures Decode([0x7b, 0xbd]) == Decoded(15293, 2) && Decode([0x40, 0x25]) == Decoded(37, 2)
    ensures Decode([0x25]) == Decoded(37, 1)
  {
    ValueOfFour(0x1d, 0x7f, 0x3e, 0x7d);
    ValueOfTwo(0x3b, 0xbd);
    ValueOfTwo(0x00, 0x25);
    ValueMore([], 0x25);
    assert [0x1d] + [0x9d, 0x7f, 0x3e, 0x7d][1..4] == [0x1d, 0x7f, 0x3e, 0x7d];
    assert [0x3b] + [0x7b, 0xbd][1..2] == [0x3b, 0xbd] && [0x00] + [0x40, 0x25][1..2] == [0x00, 0x25];
    assert [0x25] + [0x25][1..1] == [] + [0x25];
  }

  lemma LongSample()
    ensures Decode([0xc2, 0x19, 0x7c, 0x5e, 0xff, 0x14, 0xe8, 0x8c]) == Decoded(151288809941952652, 8)
  {
    var s: Bytes := [0x02, 0x19, 0x7c, 0x5e, 0xff, 0x14, 0xe8, 0x8c];
    assert [0x02] + [0xc2, 0x19, 0x7c, 0x5e, 0xff, 0x14, 0xe8, 0x8c][1..8] == s;
    ValueOfEight(s);
    assert s[..4] == [0x02, 0x19, 0x7c, 0x5e] && s[4..] == [0xff, 0x14, 0xe8, 0x8c];
    ValueOfFour(0x02, 0x19, 0x7c, 0x5e);
    ValueOfFour(0xff, 0x14, 0xe8, 0x8c);
  }
}
