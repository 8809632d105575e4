/** Printing and parsing a request head are inverse, and the end of a head is found exactly. */
module H1HeadProofs {
  import opened Common
  import opened Headers
  import opened H1Head

  // ---- lines ------------------------------------------------------------------

  lemma {:induction false} FindByteAt(line: Bytes, b: byte, rest: Bytes)
    requires b !in line
    ensures FindByte(line + [b] + rest, b) == |line|
  {
    if line == [] {
      assert (line + [b] + rest)[0] == b;
    } else {
      assert (line + [b] + rest)[0] == line[0];
      assert (line + [b] + rest)[1..] == line[1..] + [b] + rest;
      FindByteAt(line[1..], b, rest);
    }
  }

  lemma FirstLine(line: Bytes, rest: Bytes)
    requires LF !in line
    ensures LineAt(line + CRLF + rest) == line && AfterLine(line + CRLF + rest) == rest
  {
    var s := line + CRLF + rest;
    assert s == (line + [CR]) + [LF] + rest;
    FindByteAt(line + [CR], LF, rest);
    assert s[..|line| + 1] == line + [CR];
    assert (line + [CR])[..|line|] == line;
    assert s[|line| + 2..] == rest;
  }

  // ---- request line -----------------------------------------------------------

  predicate Token(s: Bytes) {
    s != [] && forall i :: 0 <= i < |s| ==> !IsSpace(s[i])
  }

  lemma {:induction false} WordOf(w: Bytes, rest: Bytes)
    requires (forall i :: 0 <= i < |w| ==> !IsSpace(w[i])) && (rest == [] || IsSpace(rest[0]))
    ensures Word(w + rest) == w
  {
    if w == [] {
      assert w + rest == rest;
    } else {
      assert (w + rest)[0] == w[0] && (w + rest)[1..] == w[1..] + rest;
      WordOf(w[1..], rest);
      assert w == [w[0]] + w[1..];
    }
  }

  lemma NextWordOf(s: Bytes, w: Bytes, rest: Bytes)
    requires Token(w) && (rest == [] || IsSpace(rest[0])) && (s == w + rest || s == [SP] + w + rest)
    ensures NextWord(s) == (w, rest)
  {
    var t := w + rest;
    assert !IsSpace(w[0]) && t[0] == w[0];
    if s != t {
      assert s[0] == SP && s[1..] == t;
    }
    assert SkipSpace(t) == t;
    assert SkipSpace(s) == t;
    WordOf(w, rest);
    assert t[|w|..] == rest;
  }

  lemma RequestLineOf(m: Bytes, p: Bytes, v: Bytes)
    requires Token(m) && Token(p) && Token(v)
    ensures ParseRequestLine(m + [SP] + p + [SP] + v) == RequestLine(m, p, v)
  {
    var r2 := [SP] + v;
    var r1 := [SP] + p + r2;
    var line := m + [SP] + p + [SP] + v;
    assert line == m + r1;
    NextWordOf(line, m, r1);
    NextWordOf(r1, p, r2);
    assert r2 == [SP] + v + [];
    NextWordOf(r2, v, []);
  }

  // ---- header fields ----------------------------------------------------------

  /** Names and values that keep a field on one line, with its first colon after the name. */
  predicate Printable(f: Field) {
    LF !in f.name && COLON !in f.name && LF !in f.value
  }

  /** The value a reader sees after a writer has put one space before it. */
  function Seen(v: Bytes): Bytes {
    TrimLeft([SP] + v)
  }

  function SeenFields(fs: seq<Field>): (r: seq<Field>)
    ensures |r| == |fs| && forall i :: 0 <= i < |fs| ==> r[i] == Field(fs[i].name, Seen(fs[i].value))
  {
    seq(|fs|, i requires 0 <= i < |fs| => Field(fs[i].name, Seen(fs[i].value)))
  }

  lemma FieldOf(f: Field)
    requires Printable(f)
    ensures ParseField(FieldLine(f)) == [Field(f.name, Seen(f.value))]
  {
    var line := FieldLine(f);
    assert line == f.name + [COLON] + ([SP] + f.value);
    FindByteAt(f.name, COLON, [SP] + f.value);
    assert line[..|f.name|] == f.name;
    assert line[|f.name| + 1..] == [SP] + f.value;
  }

  lemma BlockUnfold(fs: seq<Field>)
    requires fs != []
    ensures Block(FieldLines(fs)) == FieldLine(fs[0]) + CRLF + Block(FieldLines(fs[1..]))
  {
    assert FieldLines(fs)[1..] == FieldLines(fs[1..]);
  }

  lemma ParsesLine(line: Bytes, rest: Bytes)
    requires LF !in line && line != []
    ensures ParseFields(line + CRLF + rest) == ParseField(line) + ParseFields(rest)
  {
    FirstLine(line, rest);
  }

  lemma NoFields()
    ensures ParseFields(Block(FieldLines([]))) == []
  {
    assert Block(FieldLines([])) == [] + CRLF + [];
    FirstLine([], []);
  }

  lemma ParsesField(f: Field, rest: Bytes)
    requires Printable(f)
    ensures ParseFields(FieldLine(f) + CRLF + rest) == [Field(f.name, Seen(f.value))] + ParseFields(rest)
  {
    ParsesLine(FieldLine(f), rest);
    FieldOf(f);
  }

  lemma SeenUnfold(fs: seq<Field>)
    requires fs != []
    ensures SeenFields(fs) == [Field(fs[0].name, Seen(fs[0].value))] + SeenFields(fs[1..])
  {
  }

  lemma {:induction false} FieldsOf(fs: seq<Field>)
    requires forall i :: 0 <= i < |fs| ==> Printable(fs[i])
    ensures ParseFields(Block(FieldLines(fs))) == SeenFields(fs)
  {
    if fs == [] {
      NoFields();
    } else {
      assert Printable(fs[0]);
      FieldsOf(fs[1..]);
      BlockUnfold(fs);
      SeenUnfold(fs);
      ParsesField(fs[0], Block(FieldLines(fs[1..])));
    }
  }

  /** A value survives printing and parsing exactly when it is not empty and does not start
      with a blank. */
  lemma SeenIff(v: Bytes)
    ensures Seen(v) == v <==> v != [] && !IsBlank(v[0])
  {
    assert ([SP] + v)[1..] == v;
    DropBlanksShrinks(v);
    if v != [] && !IsBlank(v[0]) {
      assert DropBlanks(v) == v;
    }
  }

  lemma {:induction false} DropBlanksShrinks(v: Bytes)
    ensures |DropBlanks(v)| <= |v| && (v != [] && IsBlank(v[0]) ==> |DropBlanks(v)| < |v|)
  {
    if v != [] { DropBlanksShrinks(v[1..]); }
  }

  // ---- the whole head ---------------------------------------------------------

  predicate PrintableHead(h: Head) {
    && Token(h.method_) && Token(h.path) && Token(WireVersion(h.version))
    && forall i :: 0 <= i < |h.headers| ==> Printable(h.headers[i])
  }

  /** The head a reader makes of a printed one. */
  function Received(h: Head): Head {
    var t := ParseTarget(h.path);
    var hs := SeenFields(h.headers);
    var host := if t.absolute || Get(hs, HOST).None? then t.authority else Get(hs, HOST).value;
    var scheme := if t.absolute then t.scheme else HTTP;
    Head(h.method_, t.path, WireVersion(h.version), scheme, host, t.absolute, hs, LengthOf(hs))
  }

  lemma PrintLineOk(h: Head)
    requires PrintableHead(h)
    ensures LF !in PrintLine(h) && PrintLine(h) != [] && PrintLine(h)[0] != LF
  {
    var l := PrintLine(h);
    assert l[0] == h.method_[0];
    forall i | 0 <= i < |l|
      ensures l[i] != LF
    {
      var a, b := |h.method_|, |h.path|;
      if i < a { assert l[i] == h.method_[i]; }
      else if i == a || i == a + 1 + b { assert l[i] == SP; }
      else if i < a + 1 + b { assert l[i] == h.path[i - a - 1]; }
      else { assert l[i] == WireVersion(h.version)[i - a - b - 2]; }
    }
  }

  /** Parsing a printed head gives back its method, its target, its wire version and its fields in
      order, with each value as a reader sees it. */
  lemma ParsePrint(h: Head)
    requires PrintableHead(h)
    ensures Parse(Print(h)) == Some(Received(h))
  {
    var line, rest := PrintLine(h), Block(FieldLines(h.headers));
    var lines := [line] + FieldLines(h.headers);
    assert lines[1..] == FieldLines(h.headers);
    assert Print(h) == line + CRLF + rest;
    PrintLineOk(h);
    FirstLine(line, rest);
    RequestLineOf(h.method_, h.path, WireVersion(h.version));
    FieldsOf(h.headers);
    assert Print(h)[0] == line[0];
  }

  /** An origin-form head with nonblank values is given back unchanged, exactly then. */
  lemma RoundTripIff(h: Head)
    requires PrintableHead(h)
    ensures Parse(Print(h)).Some?
    ensures (Parse(Print(h)).value.path == h.path && Parse(Print(h)).value.headers == h.headers)
            <==>
            ((Find(h.path, SCHEME_MARK).None? || Find(h.path, SCHEME_MARK).value == 0)
             && forall i :: 0 <= i < |h.headers| ==> h.headers[i].value != [] && !IsBlank(h.headers[i].value[0]))
  {
    ParsePrint(h);
    SeenFieldsIff(h.headers);
    TargetIff(h.path);
  }

  lemma SeenFieldsIff(fs: seq<Field>)
    ensures SeenFields(fs) == fs <==> forall i :: 0 <= i < |fs| ==> fs[i].value != [] && !IsBlank(fs[i].value[0])
  {
    forall i | 0 <= i < |fs|
      ensures SeenFields(fs)[i] == fs[i] <==> fs[i].value != [] && !IsBlank(fs[i].value[0])
    {
      SeenIff(fs[i].value);
    }
    if forall i :: 0 <= i < |fs| ==> fs[i].value != [] && !IsBlank(fs[i].value[0]) {
      assert SeenFields(fs) == fs;
    }
  }

  /** Splitting off scheme and authority always changes the path. */
  lemma TargetIff(t: Bytes)
    ensures ParseTarget(t).path == t <==> Find(t, SCHEME_MARK).None? || Find(t, SCHEME_MARK).value == 0
  {
    var k := Find(t, SCHEME_MARK);
    if k.Some? && k.value > 0 {
      assert |ParseTarget(t).path| < |t|;
    }
  }

  // ---- responses --------------------------------------------------------------

  lemma {:induction false} DecimalOf(n: nat)
    ensures DecimalValue(ToDecimal(n)) == n
  {
    var s := ToDecimal(n);
    if n < 10 {
      assert s[..0] == [];
    } else {
      DecimalOf(n / 10);
      assert s[..|s| - 1] == ToDecimal(n / 10);
    }
  }

  lemma {:induction false} DigitsOf(s: Bytes, rest: Bytes)
    requires (forall i :: 0 <= i < |s| ==> IsDigit(s[i])) && (rest == [] || !IsDigit(rest[0]))
    ensures Digits(s + rest) == s
  {
    if s == [] {
      assert s + rest == rest;
    } else {
      assert (s + rest)[0] == s[0] && (s + rest)[1..] == s[1..] + rest;
      DigitsOf(s[1..], rest);
      assert s == [s[0]] + s[1..];
    }
  }

  predicate PrintableResponse(r: Response) {
    && Token(WireVersion(r.version)) && 0 < r.status <= INT_MAX && LF !in r.reason
    && forall i :: 0 <= i < |r.headers| ==> Printable(r.headers[i])
  }

  function ReceivedResponse(r: Response): Response {
    var hs := SeenFields(r.headers);
    Response(r.status, Seen(r.reason), WireVersion(r.version), hs, LengthOf(hs))
  }

  lemma SkipsToDigits(d: Bytes, tail: Bytes)
    requires d != [] && IsDigit(d[0])
    ensures SkipPlus(SkipSpace([SP] + (d + tail))) == d + tail
  {
    var t := d + tail;
    assert t[0] == d[0] && ([SP] + t)[1..] == t;
    assert SkipSpace(t) == t;
  }

  lemma StatusLineOf(r: Response)
    requires PrintableResponse(r)
    ensures ParseStatusLine(PrintStatusLine(r)) ==
            Some(Response(r.status, Seen(r.reason), WireVersion(r.version), [], None))
  {
    var v, d := WireVersion(r.version), ToDecimal(r.status);
    var tail := [SP] + r.reason;
    var r1 := [SP] + (d + tail);
    assert PrintStatusLine(r) == v + r1;
    NextWordOf(PrintStatusLine(r), v, r1);
    SkipsToDigits(d, tail);
    DigitsOf(d, tail);
    DecimalOf(r.status);
    assert (d + tail)[|d|..] == tail;
  }

  lemma StatusLineOk(r: Response)
    requires PrintableResponse(r)
    ensures LF !in PrintStatusLine(r) && PrintStatusLine(r) != [] && PrintStatusLine(r)[0] != LF
  {
    var l, v, d := PrintStatusLine(r), WireVersion(r.version), ToDecimal(r.status);
    assert l[0] == v[0];
    forall i | 0 <= i < |l|
      ensures l[i] != LF
    {
      var a, b := |v|, |d|;
      if i < a { assert l[i] == v[i]; }
      else if i == a || i == a + 1 + b { assert l[i] == SP; }
      else if i < a + 1 + b { assert l[i] == d[i - a - 1]; }
      else { assert l[i] == r.reason[i - a - b - 2]; }
    }
  }

  /** Parsing a printed response head gives back its status, its wire version, its reason and its
      fields in order, as a reader sees them. */
  lemma ParsePrintResponse(r: Response)
    requires PrintableResponse(r)
    ensures ParseResponse(PrintResponse(r)) == Some(ReceivedResponse(r))
  {
    var line, rest := PrintStatusLine(r), Block(FieldLines(r.headers));
    var lines := [line] + FieldLines(r.headers);
    assert lines[1..] == FieldLines(r.headers);
    assert PrintResponse(r) == line + CRLF + rest;
    StatusLineOk(r);
    FirstLine(line, rest);
    StatusLineOf(r);
    FieldsOf(r.headers);
    assert PrintResponse(r)[0] == line[0];
  }

  // ---- the end of the head ----------------------------------------------------

  predicate PlainLine(l: Bytes) {
    l != [] && LF !in l
  }

  /** The head ends at the first blank line, whatever follows. */
  lemma {:induction false} EndOfBlock(lines: seq<Bytes>, tail: Bytes)
    requires lines != [] && forall i :: 0 <= i < |lines| ==> PlainLine(lines[i])
    ensures |Block(lines)| >= 4 && Find(Block(lines) + tail, END_OF_HEAD) == Some(|Block(lines)| - 4)
  {
    BlockLength(lines);
    EndsAt(lines, tail);
    var s, k := Block(lines) + tail, |Block(lines)| - 4;
    forall j | 0 <= j < k
      ensures !OccursAt(s, END_OF_HEAD, j)
    {
      NotBefore(lines, tail, j);
    }
  }

  lemma {:induction false} BlockLength(lines: seq<Bytes>)
    requires lines != []
    ensures |Block(lines)| >= 4
  {
    if |lines| > 1 { BlockLength(lines[1..]); }
    else { assert Block(lines[1..]) == CRLF; }
  }

  lemma {:induction false} EndsAt(lines: seq<Bytes>, tail: Bytes)
    requires lines != []
    ensures |Block(lines)| >= 4 && OccursAt(Block(lines) + tail, END_OF_HEAD, |Block(lines)| - 4)
  {
    BlockLength(lines);
    var b := Block(lines);
    if |lines| == 1 {
      assert b == lines[0] + CRLF + CRLF;
    } else {
      EndsAt(lines[1..], tail);
      var b' := Block(lines[1..]);
      assert b + tail == lines[0] + CRLF + (b' + tail);
      var d := |lines[0]| + 2;
      assert (b + tail)[|b| - 4..|b|] == (b' + tail)[|b'| - 4..|b'|];
    }
  }

  lemma OccursBytes(s: Bytes, j: nat)
    ensures OccursAt(s, END_OF_HEAD, j) ==> s[j] == CR && s[j + 1] == LF && s[j + 2] == CR && s[j + 3] == LF
  {
    if OccursAt(s, END_OF_HEAD, j) {
      assert s[j] == s[j..j + 4][0] && s[j + 1] == s[j..j + 4][1];
      assert s[j + 2] == s[j..j + 4][2] && s[j + 3] == s[j..j + 4][3];
    }
  }

  /** No blank line starts inside a line or across its end, unless an empty line follows. */
  lemma NotInLine(l: Bytes, rest: Bytes, j: nat)
    requires PlainLine(l) && |rest| >= 2 && j < |l| + 2 && !(rest[0] == CR && rest[1] == LF)
    ensures !OccursAt(l + CRLF + rest, END_OF_HEAD, j)
  {
    var s := l + CRLF + rest;
    OccursBytes(s, j);
    if j + 1 < |l| {
      assert s[j + 1] == l[j + 1];
    } else if j + 1 == |l| {
      assert s[j + 1] == CR;
    } else if j == |l| {
      assert s[j + 2] == rest[0] && s[j + 3] == rest[1];
    } else {
      assert s[j] == LF;
    }
  }

  lemma NotInLastLine(l: Bytes, tail: Bytes, j: nat)
    requires PlainLine(l) && j < |l|
    ensures !OccursAt(l + CRLF + (CRLF + tail), END_OF_HEAD, j)
  {
    var s := l + CRLF + (CRLF + tail);
    OccursBytes(s, j);
    assert s[j + 1] == if j + 1 < |l| then l[j + 1] else CR;
  }

  lemma Shifted(l: Bytes, rest: Bytes, j: nat)
    requires j >= |l| + 2
    ensures OccursAt(l + CRLF + rest, END_OF_HEAD, j) <==> OccursAt(rest, END_OF_HEAD, j - |l| - 2)
  {
    var s, d := l + CRLF + rest, |l| + 2;
    if j + 4 <= |s| { assert s[j..j + 4] == rest[j - d..j - d + 4]; }
  }

  lemma {:induction false} NotBefore(lines: seq<Bytes>, tail: Bytes, j: nat)
    requires lines != [] && (forall i :: 0 <= i < |lines| ==> PlainLine(lines[i])) && j + 4 < |Block(lines)|
    ensures !OccursAt(Block(lines) + tail, END_OF_HEAD, j)
    decreases |lines|
  {
    var l, rest := lines[0], Block(lines[1..]) + tail;
    assert PlainLine(l);
    assert Block(lines) + tail == l + CRLF + rest;
    if |lines| == 1 {
      assert Block(lines[1..]) == CRLF;
      NotInLastLine(l, tail, j);
    } else if j < |l| + 2 {
      SecondLine(lines[1..], tail);
      NotInLine(l, rest, j);
    } else {
      NotBefore(lines[1..], tail, j - |l| - 2);
      Shifted(l, rest, j);
    }
  }

  lemma SecondLine(lines: seq<Bytes>, tail: Bytes)
    requires lines != [] && PlainLine(lines[0])
    ensures |Block(lines)| >= 4 && !((Block(lines) + tail)[0] == CR && (Block(lines) + tail)[1] == LF)
  {
    BlockLength(lines);
    var l, s := lines[0], Block(lines) + tail;
    assert s == l + CRLF + (Block(lines[1..]) + tail);
    if |l| == 1 {
      assert s[1] == CR;
    } else {
      assert s[1] == l[1];
    }
  }

  lemma HeadLines(line: Bytes, fs: seq<Field>)
    requires PlainLine(line) && forall i :: 0 <= i < |fs| ==> Printable(fs[i])
    ensures forall i :: 0 <= i <= |fs| ==> PlainLine(([line] + FieldLines(fs))[i])
  {
    var lines := [line] + FieldLines(fs);
    forall i | 0 < i <= |fs|
      ensures PlainLine(lines[i])
    {
      assert Printable(fs[i - 1]) && lines[i] == FieldLine(fs[i - 1]);
    }
  }

  /** The first blank line in a printed head and whatever follows is the one that ends the head. */
  lemma EndOfPrintedHead(h: Head, tail: Bytes)
    requires PrintableHead(h)
    ensures |Print(h)| >= 4 && Find(Print(h) + tail, END_OF_HEAD) == Some(|Print(h)| - 4)
  {
    PrintLineOk(h);
    HeadLines(PrintLine(h), h.headers);
    EndOfBlock([PrintLine(h)] + FieldLines(h.headers), tail);
  }

  lemma EndOfPrintedResponse(r: Response, tail: Bytes)
    requires PrintableResponse(r)
    ensures |PrintResponse(r)| >= 4 && Find(PrintResponse(r) + tail, END_OF_HEAD) == Some(|PrintResponse(r)| - 4)
  {
    StatusLineOk(r);
    HeadLines(PrintStatusLine(r), r.headers);
    EndOfBlock([PrintStatusLine(r)] + FieldLines(r.headers), tail);
  }
}
