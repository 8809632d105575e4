/** The chunked transfer-encoding decoder (section 7.1 of RFC 9112), as functions on its state. */
module ChunkedModel {
  import opened Common
  import opened Network

  const SEMI: byte := 59

  // ---- size lines -------------------------------------------------------------

  predicate IsHex(b: byte) {
    48 <= b <= 57 || 65 <= b <= 70 || 97 <= b <= 102
  }

  function HexDigit(b: byte): (d: nat)
    requires IsHex(b)
    ensures d < 16
  {
    if b <= 57 then b - 48 else if b <= 70 then b - 55 else b - 87
  }

  /** The leading hexadecimal digits of a line. */
  function HexPrefix(s: Bytes): (p: Bytes)
    ensures p <= s && forall i :: 0 <= i < |p| ==> IsHex(p[i])
  {
    if s != [] && IsHex(s[0]) then [s[0]] + HexPrefix(s[1..]) else []
  }

  function HexValue(s: Bytes): nat
    requires forall i :: 0 <= i < |s| ==> IsHex(s[i])
  {
    if s == [] then 0 else 16 * HexValue(s[..|s| - 1]) + HexDigit(s[|s| - 1])
  }

  /** What precedes the first semicolon: the size without chunk extensions. */
  function CutExtension(s: Bytes): (p: Bytes)
    ensures p <= s && SEMI !in p
  {
    if s == [] || s[0] == SEMI then [] else [s[0]] + CutExtension(s[1..])
  }

  /** strtoul in base 16: saturating, and nothing when there is no digit. */
  function ChunkSize(line: Bytes): Option<nat> {
    var p := HexPrefix(CutExtension(line));
    if p == [] then None else Some(Min(HexValue(p), SIZE_MAX))
  }

  // ---- the decoder ------------------------------------------------------------

  datatype Decoder = Decoder(remaining: nat, finished: bool)

  datatype Error = Eof | Invalid | Transport

  datatype Outcome = Err(error: Error) | Ok(data: Bytes)

  datatype Line = Line(ok: bool, text: Bytes, net: Net)

  /** Reads up to and including the next LF, one byte at a time, dropping every CR. */
  function ReadLine(net: Net, text: Bytes): (l: Line)
    ensures |l.net.rest| <= |net.rest| && l.net.end == net.end
    ensures l.ok ==> |l.net.rest| < |net.rest|
    decreases |net.rest|
  {
    if net.rest == [] then Line(false, text, After(net, 1))
    else
      var b := net.rest[0];
      if b == LF then Line(true, text, After(net, 1))
      else ReadLine(After(net, 1), if b == CR then text else text + [b])
  }

  /** Skips trailer lines up to and including the blank one. */
  function ReadTrailers(net: Net): (l: Line)
    ensures |l.net.rest| <= |net.rest| && l.net.end == net.end
    decreases |net.rest|
  {
    var l := ReadLine(net, []);
    if !l.ok || l.text == [] then l else ReadTrailers(l.net)
  }

  datatype Skip = Skip(ok: bool, net: Net)

  /** Discards `count` bytes. */
  function ReadExact(net: Net, count: nat): (s: Skip)
    requires count > 0
    ensures |s.net.rest| <= |net.rest| && s.net.end == net.end
    decreases count
  {
    var n := Size(net, Min(count, 64));
    if net.rest == [] || n == 0 then Skip(false, After(net, Min(count, 64)))
    else if n >= count then Skip(true, After(net, Min(count, 64)))
    else ReadExact(After(net, Min(count, 64)), count - n)
  }

  datatype Result = Result(d: Decoder, net: Net, out: Outcome)

  const DONE := Decoder(0, true)

  /** After some payload: the CRLF behind a chunk is skipped. */
  function EndPayload(d: Decoder, net: Net, data: Bytes): Result {
    if d.remaining > 0 then Result(d, net, Ok(data))
    else
      var s := ReadExact(net, 2);
      if s.ok then Result(d, s.net, Ok(data)) else Result(d.(finished := true), s.net, Err(Eof))
  }

  /** A read of payload has completed. */
  function Paid(d: Decoder, r: Read, net: Net): Result
    requires r.Got? ==> |r.data| <= d.remaining
  {
    match r
    case Fail(_) => Result(d.(finished := true), net, Err(Transport))
    case Got(data) => EndPayload(d.(remaining := d.remaining - |data|), net, data)
  }

  function ReadPayload(d: Decoder, net: Net, cap: nat): Result {
    var want := Min(cap, d.remaining);
    Paid(d, Pull(net, want), After(net, want))
  }

  function ReadSize(d: Decoder, net: Net, cap: nat): Result {
    var l := ReadLine(net, []);
    if !l.ok then Result(d.(finished := true), l.net, Err(Eof))
    else
      match ChunkSize(l.text)
      case None => Result(d.(finished := true), l.net, Err(Invalid))
      case Some(0) =>
        var t := ReadTrailers(l.net);
        Result(DONE, t.net, if t.ok then Ok([]) else Err(Eof))
      case Some(n) => ReadPayload(d.(remaining := n), l.net, cap)
  }

  /** One `async_read_some` with a destination buffer of `cap` bytes. */
  function ReadSome(d: Decoder, net: Net, cap: nat): Result {
    if d.finished then Result(d, net, Ok([]))
    else if d.remaining == 0 then ReadSize(d, net, cap)
    else ReadPayload(d, net, cap)
  }

  lemma PayloadShrinks(d: Decoder, net: Net, cap: nat)
    ensures var r := ReadPayload(d, net, cap);
            |r.net.rest| <= |net.rest| && (r.out.Ok? && r.out.data != [] ==> |r.net.rest| < |net.rest|)
  {
  }

  lemma ReadKeepsEnd(d: Decoder, net: Net, cap: nat)
    ensures ReadSome(d, net, cap).net.end == net.end
  {
  }

  /** A read that delivers something consumes something. */
  lemma ReadShrinks(d: Decoder, net: Net, cap: nat)
    ensures var r := ReadSome(d, net, cap);
            |r.net.rest| <= |net.rest| && (r.out.Ok? && r.out.data != [] ==> |r.net.rest| < |net.rest|)
  {
    var l := ReadLine(net, []);
    if d.remaining > 0 {
      PayloadShrinks(d, net, cap);
    } else if l.ok && ChunkSize(l.text).Some? {
      PayloadShrinks(d.(remaining := ChunkSize(l.text).value), l.net, cap);
    }
  }

  datatype Trace = Trace(d: Decoder, net: Net, outs: seq<Outcome>)

  /** A sequence of reads with the given buffer sizes. */
  function Drain(d: Decoder, net: Net, caps: seq<nat>): (t: Trace)
    ensures |t.outs| == |caps|
    decreases |caps|
  {
    if caps == [] then Trace(d, net, [])
    else
      var r := ReadSome(d, net, caps[0]);
      var t := Drain(r.d, r.net, caps[1..]);
      t.(outs := [r.out] + t.outs)
  }
}
