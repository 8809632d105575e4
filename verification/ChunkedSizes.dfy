/** Chunk sizes as a sender writes them: hexadecimal digits of either case, from tables, with leading zeros
    and an extension.  The decoder reads them back, and with them every message written so. */
module ChunkedSizes {
  import opened Common
  import opened Network
  import opened ChunkedModel
  import opened ChunkedProofs

  // ---- the writer -------------------------------------------------------------

  const LOWER_DIGITS := "0123456789abcdef"
  const UPPER_DIGITS := "0123456789ABCDEF"

  function Digit(d: nat, upper: bool): byte
    requires d < 16
  {
    if upper then UPPER_DIGITS[d] as int else LOWER_DIGITS[d] as int
  }

  /** `n` in base 16; `upper` says of each digit, counted from the last, which table it is from. */
  function WriteHex(n: nat, upper: nat -> bool, i: nat := 0): (s: Bytes)
    ensures s != []
  {
    if n < 16 then [Digit(n, upper(i))] else WriteHex(n / 16, upper, i + 1) + [Digit(n % 16, upper(i))]
  }

  function Zeros(z: nat): (s: Bytes)
    ensures |s| == z
  {
    if z == 0 then [] else Zeros(z - 1) + ['0' as int]
  }

  /** How a sender writes a size: leading zeros, the case of each digit, and an extension. */
  datatype Style = Style(zeros: nat, upper: nat -> bool, ext: Bytes)

  function WriteSize(n: nat, s: Style): Bytes {
    Zeros(s.zeros) + WriteHex(n, s.upper)
  }

  // ---- the reader -------------------------------------------------------------

  lemma DigitMeans(d: nat, upper: bool)
    requires d < 16
    ensures IsHex(Digit(d, upper)) && HexDigit(Digit(d, upper)) == d
  {
  }

  lemma AppendDigit(s: Bytes, b: byte)
    requires AllHex(s) && IsHex(b)
    ensures AllHex(s + [b]) && HexValue(s + [b]) == 16 * HexValue(s) + HexDigit(b)
  {
    assert (s + [b])[..|s|] == s;
  }

  lemma {:induction false} ReadsHex(n: nat, upper: nat -> bool, i: nat)
    ensures AllHex(WriteHex(n, upper, i)) && HexValue(WriteHex(n, upper, i)) == n
  {
    if n < 16 {
      DigitMeans(n, upper(i));
      AppendDigit([], Digit(n, upper(i)));
      assert [] + WriteHex(n, upper, i) == WriteHex(n, upper, i);
    } else {
      ReadsHex(n / 16, upper, i + 1);
      DigitMeans(n % 16, upper(i));
      AppendDigit(WriteHex(n / 16, upper, i + 1), Digit(n % 16, upper(i)));
    }
  }

  lemma {:induction false} ZerosMean(z: nat)
    ensures AllHex(Zeros(z)) && HexValue(Zeros(z)) == 0
  {
    if z > 0 {
      ZerosMean(z - 1);
      DigitMeans(0, false);
      AppendDigit(Zeros(z - 1), '0' as int);
    }
  }

  lemma {:induction false} LeadingZeros(z: nat, s: Bytes)
    requires AllHex(s)
    ensures AllHex(Zeros(z) + s) && HexValue(Zeros(z) + s) == HexValue(s)
    decreases |s|
  {
    if s == [] {
      ZerosMean(z);
      assert Zeros(z) + s == Zeros(z);
    } else {
      var t, b := s[..|s| - 1], s[|s| - 1];
      LeadingZeros(z, t);
      AppendDigit(Zeros(z) + t, b);
      AppendDigit(t, b);
      assert Zeros(z) + t + [b] == Zeros(z) + s && t + [b] == s;
    }
  }

  lemma WrittenSize(n: nat, s: Style)
    requires n <= SIZE_MAX
    ensures SizeOk(WriteSize(n, s), n)
  {
    ReadsHex(n, s.upper, 0);
    LeadingZeros(s.zeros, WriteHex(n, s.upper));
  }

  lemma SizeThen(size: Bytes, ext: Bytes)
    requires size != [] && AllHex(size) && (ext == [] || ext[0] in {SEMI, 32, 9})
    ensures ChunkSize(size + ext) == Some(Min(HexValue(size), SIZE_MAX))
  {
    CutThen(size, ext);
    HexThen(size, CutExtension(ext));
  }

  /** A size is read as it was written, whatever its zeros, the case of its digits and its extension, and
      as the largest there is when it is larger than that. */
  lemma ReadsWrittenSize(n: nat, s: Style)
    requires ExtOk(s.ext)
    ensures var v := Some(if n < 0x1_0000_0000_0000_0000 then n else 0xFFFF_FFFF_FFFF_FFFF);
            ChunkSize(WriteSize(n, s) + s.ext) == v && ChunkSize(Strip(WriteSize(n, s) + s.ext)) == v
  {
    var size := WriteSize(n, s);
    ReadsHex(n, s.upper, 0);
    LeadingZeros(s.zeros, WriteHex(n, s.upper));
    SizeThen(size, s.ext);
    StripConcat(size, s.ext);
    StripHex(size);
    SizeThen(size, Strip(s.ext));
  }

  // ---- messages ---------------------------------------------------------------

  /** One chunk as it is written. */
  datatype Piece = Piece(data: Bytes, style: Style)

  function WritePiece(p: Piece): Bytes {
    WriteSize(|p.data|, p.style) + p.style.ext + CRLF + p.data + CRLF
  }

  function WriteTrailers(ts: seq<Bytes>): Bytes {
    if ts == [] then [] else ts[0] + CRLF + WriteTrailers(ts[1..])
  }

  /** A chunked body as a sender writes it. */
  function WriteBody(ps: seq<Piece>, last: Style, trailers: seq<Bytes>): Bytes {
    if ps == [] then WriteSize(0, last) + last.ext + CRLF + WriteTrailers(trailers) + CRLF
    else WritePiece(ps[0]) + WriteBody(ps[1..], last, trailers)
  }

  function DataOf(ps: seq<Piece>): Bytes {
    if ps == [] then [] else ps[0].data + DataOf(ps[1..])
  }

  predicate Writable(ps: seq<Piece>, last: Style, trailers: seq<Bytes>) {
    && (forall i :: 0 <= i < |ps| ==> 0 < |ps[i].data| <= SIZE_MAX && ExtOk(ps[i].style.ext))
    && ExtOk(last.ext) && forall i :: 0 <= i < |trailers| ==> TrailerOk(trailers[i])
  }

  function ChunkOf(p: Piece): Chunk {
    Chunk(WriteSize(|p.data|, p.style), p.style.ext, p.data)
  }

  function ChunksOf(ps: seq<Piece>): (cs: seq<Chunk>)
    ensures |cs| == |ps| && forall i :: 0 <= i < |ps| ==> cs[i] == ChunkOf(ps[i])
  {
    if ps == [] then [] else [ChunkOf(ps[0])] + ChunksOf(ps[1..])
  }

  function MessageOf(ps: seq<Piece>, last: Style, trailers: seq<Bytes>): Message {
    Message(ChunksOf(ps), WriteSize(0, last), last.ext, trailers)
  }

  lemma {:induction false} TrailersWritten(ts: seq<Bytes>)
    ensures WriteTrailers(ts) + CRLF == Lines(ts)
  {
    if ts != [] {
      TrailersWritten(ts[1..]);
      assert ts[0] + CRLF + WriteTrailers(ts[1..]) + CRLF == ts[0] + CRLF + (WriteTrailers(ts[1..]) + CRLF);
    }
  }

  lemma Regrouped(a: Bytes, b: Bytes, c: Bytes)
    ensures (a + CRLF + b + CRLF) + c == a + CRLF + (b + CRLF + c)
  {
  }

  lemma {:induction false} BodyWritten(ps: seq<Piece>, last: Style, trailers: seq<Bytes>)
    ensures WriteBody(ps, last, trailers) == Encode(MessageOf(ps, last, trailers))
    ensures DataOf(ps) == Payload(ChunksOf(ps))
  {
    var m := MessageOf(ps, last, trailers);
    if ps == [] {
      var line := WriteSize(0, last) + last.ext + CRLF;
      TrailersWritten(trailers);
      assert line + WriteTrailers(trailers) + CRLF == line + (WriteTrailers(trailers) + CRLF);
    } else {
      BodyWritten(ps[1..], last, trailers);
      assert ChunksOf(ps)[1..] == ChunksOf(ps[1..]);
      assert m.(chunks := m.chunks[1..]) == MessageOf(ps[1..], last, trailers);
      Regrouped(WriteSize(|ps[0].data|, ps[0].style) + ps[0].style.ext, ps[0].data, WriteBody(ps[1..], last, trailers));
    }
  }

  lemma WrittenWellFormed(ps: seq<Piece>, last: Style, trailers: seq<Bytes>)
    requires Writable(ps, last, trailers)
    ensures WellFormed(MessageOf(ps, last, trailers))
  {
    WrittenSize(0, last);
    forall i | 0 <= i < |ps|
      ensures ChunkOk(ChunksOf(ps)[i])
    {
      WrittenSize(|ps[i].data|, ps[i].style);
    }
  }

  /** Every body that a sender writes, every fragmentation of it into reads and every sequence of nonempty
      buffers: its data in order and no more, and once an empty read or enough buffers have come, all
      of it, with the stream left at what follows. */
  lemma DecodesEveryBody(ps: seq<Piece>, last: Style, trailers: seq<Bytes>, next: Bytes, net: Net, caps: seq<nat>)
    requires Writable(ps, last, trailers) && net.rest == WriteBody(ps, last, trailers) + next
    requires forall i :: 0 <= i < |caps| ==> caps[i] > 0
    ensures var t := Drain(Decoder(0, false), net, caps);
            && (forall i :: 0 <= i < |caps| ==> t.outs[i].Ok?)
            && Delivered(t.outs) <= DataOf(ps)
            && (Ok([]) in t.outs || |caps| > |DataOf(ps)| ==> Delivered(t.outs) == DataOf(ps) && t.net.rest == next)
  {
    WrittenWellFormed(ps, last, trailers);
    BodyWritten(ps, last, trailers);
    DecodesEveryMessage(MessageOf(ps, last, trailers), next, net, caps);
  }

  lemma HexIsDigit(b: byte) returns (d: nat, upper: bool)
    requires IsHex(b)
    ensures d < 16 && b == Digit(d, upper)
  {
    d, upper := HexDigit(b), b <= 70;
  }

  /** A line that does not begin with a digit has no size. */
  lemma NoSize(line: Bytes)
    requires line == [] || forall d, upper :: 0 <= d < 16 ==> line[0] != Digit(d, upper)
    ensures ChunkSize(line) == None
  {
    if line != [] && IsHex(line[0]) { var d, upper := HexIsDigit(line[0]); }
  }
}
