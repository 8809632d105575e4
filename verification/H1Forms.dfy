/** What the parsers make of heads that are written out: the forms of a request target, the fields, the
    version and the Connection field, each for every text of its form. */
module H1Forms {
  import opened Common
  import opened Headers
  import opened H1Head
  import opened H1HeadProofs

  // ---- texts ------------------------------------------------------------------

  const CAPITALS := "ABCDEFGHIJKLMNOPQRSTUVWXYZ"
  const SMALL := "abcdefghijklmnopqrstuvwxyz"

  /** Capital letters become small ones, and nothing else changes. */
  lemma LowerLetters(s: Bytes, i: nat)
    requires i < |s|
    ensures forall k :: 0 <= k < 26 && s[i] == CAPITALS[k] as int ==> Lower(s)[i] == SMALL[k] as int
    ensures (forall k :: 0 <= k < 26 ==> s[i] != CAPITALS[k] as int) ==> Lower(s)[i] == s[i]
  {
    if 65 <= s[i] <= 90 {
      CapitalAt(s[i] - 65);
    }
    forall k | 0 <= k < 26 && s[i] == CAPITALS[k] as int
      ensures Lower(s)[i] == SMALL[k] as int
    {
      CapitalAt(k);
    }
  }

  lemma CapitalAt(k: nat)
    requires k < 26
    ensures CAPITALS[k] as int == 65 + k && SMALL[k] as int == 97 + k
  {
  }

  const MARK_TEXT := Ascii("://")
  const SLASH_TEXT := Ascii("/")
  const SPACE_TEXT := Ascii(" ")
  const EOL_TEXT := Ascii("\r\n")
  const HTTP_TEXT := Ascii("http")
  const HOST_TEXT := Ascii("host")
  const V1_TEXT := Ascii("HTTP/1.")
  const V10_TEXT := Ascii("HTTP/1.0")
  const V11_TEXT := Ascii("HTTP/1.1")
  const CONNECTION_TEXT := Ascii("Connection")
  const CLOSE_TEXT := Ascii("close")
  const KEEP_TEXT := Ascii("keep-alive")

  /** The constants of the codec are these texts. */
  lemma Texts()
    ensures SCHEME_MARK == MARK_TEXT && [SLASH] == SLASH_TEXT && [SP] == SPACE_TEXT && CRLF == EOL_TEXT
    ensures HTTP == HTTP_TEXT && HOST == HOST_TEXT && HTTP1 == V1_TEXT && HTTP10 == V10_TEXT && HTTP11 == V11_TEXT
    ensures Lower(CONNECTION) == Lower(CONNECTION_TEXT) && CLOSE == CLOSE_TEXT && KEEP_ALIVE == KEEP_TEXT
  {
  }

  /** The names of the fields that say where a body ends. */
  lemma LengthTexts()
    ensures CONTENT_LENGTH == Ascii("content-length") && TRANSFER_ENCODING == Ascii("transfer-encoding")
  {
  }

  // ---- request targets --------------------------------------------------------

  /** The text of a request up to its first field. */
  function RequestText(m: Bytes, target: Bytes, version: Bytes, rest: Bytes): Bytes {
    m + SPACE_TEXT + target + SPACE_TEXT + version + EOL_TEXT + rest
  }

  lemma {:induction false} ByteAfter(a: Bytes, b: byte, p: Bytes)
    requires b !in a && (p == [] || p[0] == b)
    ensures FindByte(a + p, b) == |a|
  {
    if a == [] {
      assert a + p == p;
    } else {
      assert (a + p)[0] == a[0] && (a + p)[1..] == a[1..] + p;
      ByteAfter(a[1..], b, p);
    }
  }

  lemma TokenLine(m: Bytes, target: Bytes, version: Bytes)
    requires Token(m) && Token(target) && Token(version)
    ensures var line := m + [SP] + target + [SP] + version; line != [] && line[0] == m[0] && LF !in line
  {
    var line := m + [SP] + target + [SP] + version;
    forall i | 0 <= i < |line|
      ensures line[i] != LF
    {
      var a, b := |m|, |target|;
      if i < a { assert line[i] == m[i]; }
      else if i == a || i == a + 1 + b { assert line[i] == SP; }
      else if i < a + 1 + b { assert line[i] == target[i - a - 1]; }
      else { assert line[i] == version[i - a - b - 2]; }
    }
  }

  /** Three words and a line end: what the parser sees first. */
  lemma FirstWords(m: Bytes, target: Bytes, version: Bytes, rest: Bytes)
    requires Token(m) && Token(target) && Token(version)
    ensures var raw := RequestText(m, target, version, rest);
            && raw != [] && raw[0] != LF && AfterLine(raw) == rest
            && ParseRequestLine(LineAt(raw)) == RequestLine(m, target, version)
  {
    var line := m + [SP] + target + [SP] + version;
    TokenLine(m, target, version);
    assert RequestText(m, target, version, rest) == line + CRLF + rest;
    FirstLine(line, rest);
    RequestLineOf(m, target, version);
    assert line[0] == m[0] && !IsSpace(m[0]);
  }

  lemma FirstAt(t: Bytes, k: nat)
    requires OccursAt(t, SCHEME_MARK, k) && forall j :: 0 <= j < k ==> !OccursAt(t, SCHEME_MARK, j)
    ensures Find(t, SCHEME_MARK) == Some(k)
  {
  }

  lemma SplitTarget(s: Bytes, a: Bytes, p: Bytes)
    requires s != [] && SLASH !in a && (p == [] || p[0] == SLASH)
    requires forall j :: 0 <= j < |s| ==> !OccursAt(s + MARK_TEXT + a + p, MARK_TEXT, j)
    ensures ParseTarget(s + MARK_TEXT + a + p) == Target(true, Lower(s), a, if p == [] then [SLASH] else p)
  {
    Texts();
    var t := s + SCHEME_MARK + a + p;
    assert t == (s + SCHEME_MARK) + (a + p) && t[|s|..|s| + 3] == SCHEME_MARK;
    FirstAt(t, |s|);
    assert t[|s| + 3..] == a + p && t[..|s|] == s;
    ByteAfter(a, SLASH, p);
    assert (a + p)[..|a|] == a && (a + p)[|a|..] == p;
  }

  /** An absolute-form target, `s://a` or `s://a/..`: scheme in small letters, authority and path. */
  lemma AbsoluteForm(m: Bytes, s: Bytes, a: Bytes, p: Bytes, version: Bytes, rest: Bytes)
    requires s != [] && SLASH !in a && (p == [] || p[0] == SLASH)
    requires forall j :: 0 <= j < |s| ==> !OccursAt(s + MARK_TEXT + a + p, MARK_TEXT, j)
    requires Token(m) && Token(s + MARK_TEXT + a + p) && Token(version)
    ensures var h := Parse(RequestText(m, s + MARK_TEXT + a + p, version, rest));
            && h.Some? && h.value.method_ == m && h.value.version == version
            && h.value.absolute && h.value.scheme == Lower(s) && h.value.authority == a
            && h.value.path == if p == [] then SLASH_TEXT else p
  {
    Texts();
    FirstWords(m, s + MARK_TEXT + a + p, version, rest);
    SplitTarget(s, a, p);
  }

  /** Any other target is the path as it is; the authority is what the Host field says, if there is one. */
  lemma OriginForm(m: Bytes, t: Bytes, version: Bytes, rest: Bytes)
    requires Token(m) && Token(t) && Token(version)
    requires OccursAt(t, MARK_TEXT, 0) || forall j :: 0 <= j < |t| ==> !OccursAt(t, MARK_TEXT, j)
    ensures var h := Parse(RequestText(m, t, version, rest));
            && h.Some? && h.value.method_ == m && h.value.version == version
            && !h.value.absolute && h.value.scheme == HTTP_TEXT && h.value.path == t
            && h.value.authority == match Get(h.value.headers, HOST_TEXT) case None => [] case Some(v) => v
  {
    Texts();
    FirstWords(m, t, version, rest);
    if OccursAt(t, SCHEME_MARK, 0) {
      assert Find(t, SCHEME_MARK) == Some(0);
    }
  }

  // ---- fields -----------------------------------------------------------------

  predicate Blanks(s: Bytes) {
    forall i :: 0 <= i < |s| ==> s[i] == ' ' as int || s[i] == '\t' as int
  }

  lemma {:induction false} DropsBlanks(b: Bytes, w: Bytes)
    requires Blanks(b) && (w == [] || (w[0] != ' ' as int && w[0] != '\t' as int))
    ensures DropBlanks(b + w) == w
  {
    if b == [] {
      assert b + w == w;
    } else {
      assert (b + w)[0] == b[0] && (b + w)[1..] == b[1..] + w;
      DropsBlanks(b[1..], w);
    }
  }

  /** `name:` with blanks and a value behind it: the value without the blanks, or the blanks alone. */
  lemma FieldForm(name: Bytes, b: Bytes, w: Bytes)
    requires Ascii(":")[0] !in name && Blanks(b) && (w == [] || (w[0] != ' ' as int && w[0] != '\t' as int))
    ensures ParseField(name + Ascii(":") + b + w) == [Field(name, if w == [] then b else w)]
  {
    var line := name + [COLON] + (b + w);
    assert name + Ascii(":") + b + w == line;
    FindByteAt(name, COLON, b + w);
    assert line[..|name|] == name && line[|name| + 1..] == b + w;
    DropsBlanks(b, w);
    if w == [] { assert b + w == b; }
  }

  lemma {:induction false} NoByte(s: Bytes, b: byte)
    requires b !in s
    ensures FindByte(s, b) == |s|
  {
    if s != [] { NoByte(s[1..], b); }
  }

  /** A line without a colon is no field. */
  lemma NoField(line: Bytes)
    requires Ascii(":")[0] !in line
    ensures ParseField(line) == []
  {
    assert Ascii(":")[0] == COLON;
    NoByte(line, COLON);
  }

  // ---- the version ------------------------------------------------------------

  /** A version of HTTP/1 is written as it is, any other as HTTP/1.1. */
  lemma WrittenVersion(h: Head, r: Response)
    ensures var v := if V1_TEXT <= h.version then h.version else V11_TEXT;
            h.method_ + SPACE_TEXT + h.path + SPACE_TEXT + v + EOL_TEXT <= Print(h)
    ensures var v := if V1_TEXT <= r.version then r.version else V11_TEXT;
            v + SPACE_TEXT + ToDecimal(r.status) + SPACE_TEXT + r.reason + EOL_TEXT <= PrintResponse(r)
  {
    Texts();
    var hs, rs := [PrintLine(h)] + FieldLines(h.headers), [PrintStatusLine(r)] + FieldLines(r.headers);
    assert Print(h) == PrintLine(h) + CRLF + Block(hs[1..]);
    assert PrintResponse(r) == PrintStatusLine(r) + CRLF + Block(rs[1..]);
  }

  // ---- keeping the connection -------------------------------------------------

  predicate Contains(s: Bytes, t: Bytes) {
    exists i :: 0 <= i <= |s| && OccursAt(s, t, i)
  }

  lemma FindsIff(s: Bytes, t: Bytes)
    ensures Find(s, t).Some? <==> Contains(s, t)
  {
  }

  lemma {:induction false} FirstField(before: seq<Field>, f: Field, after: seq<Field>, name: Bytes)
    requires SameName(f.name, name) && forall i :: 0 <= i < |before| ==> !SameName(before[i].name, name)
    ensures Get(before + [f] + after, name) == Some(f.value)
  {
    if before == [] {
      assert (before + [f] + after)[0] == f;
    } else {
      assert (before + [f] + after)[0] == before[0];
      assert (before + [f] + after)[1..] == before[1..] + [f] + after;
      FirstField(before[1..], f, after, name);
    }
  }

  lemma {:induction false} NoSuchField(fs: seq<Field>, name: Bytes)
    requires forall i :: 0 <= i < |fs| ==> !SameName(fs[i].name, name)
    ensures Get(fs, name) == None
  {
    if fs != [] { NoSuchField(fs[1..], name); }
  }

  /** The first Connection field decides: `close` in it closes, otherwise `keep-alive` in it keeps, and
      otherwise every version but HTTP/1.0 keeps. */
  lemma ConnectionForm(before: seq<Field>, f: Field, after: seq<Field>, version: Bytes)
    requires SameName(f.name, CONNECTION_TEXT)
    requires forall i :: 0 <= i < |before| ==> !SameName(before[i].name, CONNECTION_TEXT)
    ensures KeepAlive(before + [f] + after, version) <==>
              !Contains(f.value, CLOSE_TEXT)
              && (Contains(f.value, KEEP_TEXT) || !(V10_TEXT <= version))
  {
    Texts();
    FirstField(before, f, after, CONNECTION);
    FindsIff(f.value, CLOSE);
    FindsIff(f.value, KEEP_ALIVE);
  }

  lemma NoConnectionForm(fs: seq<Field>, version: Bytes)
    requires forall i :: 0 <= i < |fs| ==> !SameName(fs[i].name, CONNECTION_TEXT)
    ensures KeepAlive(fs, version) <==> !(V10_TEXT <= version)
  {
    Texts();
    NoSuchField(fs, CONNECTION);
  }

  // ---- lines, words and numbers -----------------------------------------------

  /** A line may also end in LF alone. */
  lemma BareLine(line: Bytes, rest: Bytes)
    requires LF !in line && (line == [] || line[|line| - 1] != CR)
    ensures LineAt(line + Ascii("\n") + rest) == line && AfterLine(line + Ascii("\n") + rest) == rest
  {
    assert Ascii("\n") == [LF];
    var s := line + [LF] + rest;
    FindByteAt(line, LF, rest);
    assert s[..|line|] == line && s[|line| + 1..] == rest;
  }

  predicate White(s: Bytes) {
    forall i :: 0 <= i < |s| ==> s[i] == ' ' as int || 9 <= s[i] <= 13
  }

  lemma {:induction false} SkipsWhite(s: Bytes, t: Bytes)
    requires White(s) && (t == [] || !IsSpace(t[0]))
    ensures SkipSpace(s + t) == t
  {
    if s == [] {
      assert s + t == t;
    } else {
      assert (s + t)[0] == s[0] && (s + t)[1..] == s[1..] + t;
      SkipsWhite(s[1..], t);
    }
  }

  lemma WordForm(s: Bytes, w: Bytes, rest: Bytes)
    requires White(s) && Token(w) && (rest == [] || IsSpace(rest[0]))
    ensures NextWord(s + w + rest) == (w, rest)
  {
    assert s + w + rest == s + (w + rest) && !IsSpace(w[0]);
    SkipsWhite(s, w + rest);
    WordOf(w, rest);
    assert (w + rest)[|w|..] == rest;
  }

  /** The words of a request line may have any white space around them. */
  lemma SpacedLine(s0: Bytes, m: Bytes, s1: Bytes, t: Bytes, s2: Bytes, v: Bytes, s3: Bytes)
    requires White(s0) && White(s1) && White(s2) && White(s3) && s1 != [] && s2 != []
    requires Token(m) && Token(t) && Token(v)
    ensures ParseRequestLine(s0 + m + (s1 + t + (s2 + v + s3))) == RequestLine(m, t, v)
  {
    WordForm(s0, m, s1 + t + (s2 + v + s3));
    WordForm(s1, t, s2 + v + s3);
    WordForm(s2, v, s3);
  }

  /** Without a second word there is no request. */
  lemma NoRequestForm(s0: Bytes, m: Bytes, s1: Bytes, rest: Bytes)
    requires White(s0) && White(s1) && LF !in s0 && LF !in s1 && CR !in s0 && CR !in s1
    requires m == [] || Token(m)
    ensures Parse(s0 + m + s1 + EOL_TEXT + rest) == None
  {
    Texts();
    var line := s0 + m + s1;
    forall i | 0 <= i < |line|
      ensures line[i] != LF
    {
      if i < |s0| { assert line[i] == s0[i]; }
      else if i < |s0| + |m| { assert line[i] == m[i - |s0|]; }
      else { assert line[i] == s1[i - |s0| - |m|]; }
    }
    FirstLine(line, rest);
    OneWord(s0, m, s1);
  }

  lemma OneWord(s0: Bytes, m: Bytes, s1: Bytes)
    requires White(s0) && White(s1) && (m == [] || Token(m))
    ensures var rl := ParseRequestLine(s0 + m + s1); rl.method_ == m && rl.target == []
  {
    if m == [] {
      assert s0 + m + s1 == (s0 + s1) + [] && White(s0 + s1);
      SkipsWhite(s0 + s1, []);
    } else {
      WordForm(s0, m, s1);
      assert s1 + [] == s1;
      SkipsWhite(s1, []);
    }
  }

  const DECIMALS := "0123456789"

  /** Numbers are written with the ten digits, the last one for what is left over after tens. */
  lemma DecimalText(n: nat)
    ensures n < 10 ==> ToDecimal(n) == [DECIMALS[n] as int]
    ensures n >= 10 ==> ToDecimal(n) == ToDecimal(n / 10) + [DECIMALS[n % 10] as int]
  {
  }

  /** A length is the number its field begins with, or the largest there is. */
  lemma LengthForm(n: nat, rest: Bytes)
    requires rest == [] || !(48 <= rest[0] <= 57)
    ensures Decimal(ToDecimal(n) + rest) == if n < 0x1_0000_0000_0000_0000 then n else 0xFFFF_FFFF_FFFF_FFFF
  {
    DigitsOf(ToDecimal(n), rest);
    DecimalOf(n);
  }

  /** A status line: version, status, which may have a plus before it, and reason. */
  lemma StatusForm(v: Bytes, s: Bytes, plus: bool, n: nat, rest: Bytes)
    requires Token(v) && White(s) && s != [] && 0 < n && (rest == [] || !(48 <= rest[0] <= 57))
    ensures ParseStatusLine(v + (s + ((if plus then Ascii("+") else []) + (ToDecimal(n) + rest)))) ==
            Some(if n < 0x8000_0000 then Response(n, TrimLeft(rest), v, [], None)
                 else Response(0x7FFF_FFFF, [], v, [], None))
  {
    var d := ToDecimal(n) + rest;
    var p: Bytes := if plus then [PLUS] else [];
    assert Ascii("+") == [PLUS];
    assert v + (s + (p + d)) == [] + v + (s + (p + d));
    WordForm([], v, s + (p + d));
    assert (p + d)[0] == if plus then PLUS else ToDecimal(n)[0];
    SkipsWhite(s, p + d);
    assert SkipPlus(p + d) == d by { if plus { assert (p + d)[1..] == d; } else { assert p + d == d; } }
    DigitsOf(ToDecimal(n), rest);
    DecimalOf(n);
    assert d[|ToDecimal(n)|..] == rest;
  }
}
