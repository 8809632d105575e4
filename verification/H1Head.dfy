/** HTTP/1.1 message heads: printing and parsing (sections 3 to 5 of RFC 9112). */
module H1Head {
  import opened Common
  import opened Headers

  const SP: byte := 32
  const TAB: byte := 9
  const SLASH: byte := 47
  const END_OF_HEAD: Bytes := [13, 10, 13, 10]
  const SCHEME_MARK: Bytes := [58, 47, 47]                                        // ://
  const HTTP1: Bytes := [72, 84, 84, 80, 47, 49, 46]                              // HTTP/1.
  const HTTP11: Bytes := [72, 84, 84, 80, 47, 49, 46, 49]                         // HTTP/1.1
  const HTTP: Bytes := [104, 116, 116, 112]                                       // http
  const HOST: Bytes := [104, 111, 115, 116]                                       // host
  const CONTENT_LENGTH: Bytes :=
    [99, 111, 110, 116, 101, 110, 116, 45, 108, 101, 110, 103, 116, 104]          // content-length

  datatype Head = Head(
    method_: Bytes, path: Bytes, version: Bytes, scheme: Bytes, authority: Bytes, absolute: bool,
    headers: seq<Field>, contentLength: Option<nat>)

  // ---- searching --------------------------------------------------------------

  /** First position of `b`, or the length. */
  function FindByte(s: Bytes, b: byte): (i: nat)
    ensures i <= |s| && (i < |s| ==> s[i] == b) && b !in s[..i]
  {
    if s == [] || s[0] == b then 0
    else
      var i := 1 + FindByte(s[1..], b);
      assert s[..i] == [s[0]] + s[1..][..i - 1];
      i
  }

  predicate OccursAt(s: Bytes, pat: Bytes, i: nat) {
    i + |pat| <= |s| && s[i..i + |pat|] == pat
  }

  /** First position of `pat` from `from` on. */
  function Find(s: Bytes, pat: Bytes, from: nat := 0): (k: Option<nat>)
    requires from <= |s|
    ensures k.Some? ==> from <= k.value && OccursAt(s, pat, k.value)
    ensures forall j :: from <= j < (if k.Some? then k.value else |s| + 1) ==> !OccursAt(s, pat, j)
    decreases |s| - from
  {
    if OccursAt(s, pat, from) then Some(from)
    else if from == |s| then None
    else Find(s, pat, from + 1)
  }

  // ---- request line -----------------------------------------------------------

  predicate IsSpace(b: byte) {
    b == SP || 9 <= b <= 13
  }

  function SkipSpace(s: Bytes): (t: Bytes)
    ensures |t| <= |s|
  {
    if s != [] && IsSpace(s[0]) then SkipSpace(s[1..]) else s
  }

  /** The bytes up to the next white space. */
  function Word(s: Bytes): (t: Bytes)
    ensures |t| <= |s| && t <= s
  {
    if s == [] || IsSpace(s[0]) then [] else [s[0]] + Word(s[1..])
  }

  /** `stream >> word`: the word and what follows it. */
  function NextWord(s: Bytes): (Bytes, Bytes) {
    var t := SkipSpace(s);
    (Word(t), t[|Word(t)|..])
  }

  datatype RequestLine = RequestLine(method_: Bytes, target: Bytes, version: Bytes)

  function ParseRequestLine(line: Bytes): RequestLine {
    var (m, r1) := NextWord(line);
    var (p, r2) := NextWord(r1);
    var (v, _) := NextWord(r2);
    RequestLine(m, p, v)
  }

  datatype Target = Target(absolute: bool, scheme: Bytes, authority: Bytes, path: Bytes)

  /** An absolute-form target is split; any other is kept as it is. */
  function ParseTarget(t: Bytes): Target {
    var k := Find(t, SCHEME_MARK);
    if k.None? || k.value == 0 then Target(false, [], [], t)
    else
      var rest := t[k.value + 3..];
      var slash := FindByte(rest, SLASH);
      Target(true, Lower(t[..k.value]), rest[..slash], if slash == |rest| then [SLASH] else rest[slash..])
  }

  // ---- header lines -----------------------------------------------------------

  function ChopCr(line: Bytes): Bytes {
    if line != [] && line[|line| - 1] == CR then line[..|line| - 1] else line
  }

  predicate IsBlank(b: byte) {
    b == SP || b == TAB
  }

  function DropBlanks(v: Bytes): Bytes {
    if v != [] && IsBlank(v[0]) then DropBlanks(v[1..]) else v
  }

  /** Leading blanks go, unless there is nothing else. */
  function TrimLeft(v: Bytes): Bytes {
    if DropBlanks(v) == [] then v else DropBlanks(v)
  }

  function LineAt(s: Bytes): Bytes {
    ChopCr(s[..FindByte(s, LF)])
  }

  function AfterLine(s: Bytes): (t: Bytes)
    ensures s != [] ==> |t| < |s|
  {
    var i := FindByte(s, LF);
    if i < |s| then s[i + 1..] else []
  }

  function ParseField(line: Bytes): seq<Field> {
    var c := FindByte(line, COLON);
    if c == |line| then [] else [Field(line[..c], TrimLeft(line[c + 1..]))]
  }

  function ParseFields(s: Bytes): seq<Field>
    decreases |s|
  {
    if s == [] || LineAt(s) == [] then [] else ParseField(LineAt(s)) + ParseFields(AfterLine(s))
  }

  predicate IsDigit(b: byte) {
    48 <= b <= 57
  }

  function Digits(s: Bytes): (p: Bytes)
    ensures p <= s && forall i :: 0 <= i < |p| ==> IsDigit(p[i])
  {
    if s != [] && IsDigit(s[0]) then [s[0]] + Digits(s[1..]) else []
  }

  function DecimalValue(s: Bytes): nat
    requires forall i :: 0 <= i < |s| ==> IsDigit(s[i])
  {
    if s == [] then 0
    else
      assert IsDigit(s[|s| - 1]);
      10 * DecimalValue(s[..|s| - 1]) + (s[|s| - 1] as int - 48)
  }

  /** strtoul in base 10, saturating. */
  function Decimal(s: Bytes): nat {
    Min(DecimalValue(Digits(s)), SIZE_MAX)
  }

  function LengthOf(headers: seq<Field>): Option<nat> {
    match Get(headers, CONTENT_LENGTH)
    case None => None
    case Some(v) => Some(Decimal(v))
  }

  /** The head in a raw block; None when there is no usable request line. */
  function Parse(raw: Bytes): Option<Head> {
    if raw == [] || raw[0] == LF then None
    else
      var rl := ParseRequestLine(LineAt(raw));
      if rl.method_ == [] || rl.target == [] then None
      else
        var t := ParseTarget(rl.target);
        var hs := ParseFields(AfterLine(raw));
        var host := if t.absolute || Get(hs, HOST).None? then t.authority else Get(hs, HOST).value;
        var scheme := if t.absolute then t.scheme else HTTP;
        Some(Head(rl.method_, t.path, rl.version, scheme, host, t.absolute, hs, LengthOf(hs)))
  }

  // ---- response head ----------------------------------------------------------

  const PLUS: byte := 43
  const INT_MAX := 0x7FFF_FFFF

  datatype Response = Response(
    status: nat, reason: Bytes, version: Bytes, headers: seq<Field>, contentLength: Option<nat>)

  function SkipPlus(s: Bytes): Bytes {
    if s != [] && s[0] == PLUS then s[1..] else s
  }

  /** Version, status and reason of a status line; None when the status is missing or not positive. */
  function ParseStatusLine(line: Bytes): Option<Response> {
    var (v, r1) := NextWord(line);
    var r2 := SkipPlus(SkipSpace(r1));
    var ds := Digits(r2);
    var n := DecimalValue(ds);
    if n == 0 then None
    else if n > INT_MAX then Some(Response(INT_MAX, [], v, [], None))
    else Some(Response(n, TrimLeft(r2[|ds|..]), v, [], None))
  }

  function ParseResponse(raw: Bytes): Option<Response> {
    if raw == [] || raw[0] == LF then None
    else
      match ParseStatusLine(LineAt(raw))
      case None => None
      case Some(r) =>
        var hs := ParseFields(AfterLine(raw));
        Some(r.(headers := hs, contentLength := LengthOf(hs)))
  }

  // ---- keeping the connection -------------------------------------------------

  const CONNECTION: Bytes := [99, 111, 110, 110, 101, 99, 116, 105, 111, 110]             // connection
  const CLOSE: Bytes := [99, 108, 111, 115, 101]                                          // close
  const KEEP_ALIVE: Bytes := [107, 101, 101, 112, 45, 97, 108, 105, 118, 101]             // keep-alive
  const HTTP10: Bytes := [72, 84, 84, 80, 47, 49, 46, 48]                                 // HTTP/1.0

  predicate Mentions(hs: seq<Field>, name: Bytes, what: Bytes) {
    Get(hs, name).Some? && Find(Get(hs, name).value, what).Some?
  }

  /** Section 9.3 of RFC 9112: `close` wins over `keep-alive`, which wins over the version. */
  function KeepAlive(hs: seq<Field>, version: Bytes): bool {
    if Mentions(hs, CONNECTION, CLOSE) then false
    else if Mentions(hs, CONNECTION, KEEP_ALIVE) then true
    else !(HTTP10 <= version)
  }

  // ---- printing ---------------------------------------------------------------

  /** A valid HTTP/1.x version is kept, any other becomes HTTP/1.1. */
  function WireVersion(v: Bytes): Bytes {
    if HTTP1 <= v then v else HTTP11
  }

  function FieldLine(f: Field): Bytes {
    f.name + [COLON, SP] + f.value
  }

  function FieldLines(fs: seq<Field>): (ls: seq<Bytes>)
    ensures |ls| == |fs| && forall i :: 0 <= i < |fs| ==> ls[i] == FieldLine(fs[i])
  {
    seq(|fs|, i requires 0 <= i < |fs| => FieldLine(fs[i]))
  }

  /** Lines, each with its CRLF, and the blank line that ends the head. */
  function Block(lines: seq<Bytes>): Bytes {
    if lines == [] then CRLF else lines[0] + CRLF + Block(lines[1..])
  }

  function PrintLine(h: Head): Bytes {
    h.method_ + [SP] + h.path + [SP] + WireVersion(h.version)
  }

  function Print(h: Head): Bytes {
    Block([PrintLine(h)] + FieldLines(h.headers))
  }

  function ToDecimal(n: nat): (s: Bytes)
    ensures s != [] && forall i :: 0 <= i < |s| ==> IsDigit(s[i])
  {
    if n < 10 then [48 + n] else ToDecimal(n / 10) + [48 + n % 10]
  }

  function PrintStatusLine(r: Response): Bytes {
    WireVersion(r.version) + [SP] + ToDecimal(r.status) + [SP] + r.reason
  }

  function PrintResponse(r: Response): Bytes {
    Block([PrintStatusLine(r)] + FieldLines(r.headers))
  }
}
