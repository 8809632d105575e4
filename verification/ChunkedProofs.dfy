/** The decoder inverts the encoding, for every fragmentation and every choice of buffers. */
module ChunkedProofs {
  import opened Common
  import opened Network
  import opened ChunkedModel

  // ---- the encoding (section 7.1 of RFC 9112) ---------------------------------

  datatype Chunk = Chunk(size: Bytes, ext: Bytes, data: Bytes)

  datatype Message = Message(chunks: seq<Chunk>, zero: Bytes, lastExt: Bytes, trailers: seq<Bytes>)

  predicate AllHex(s: Bytes) {
    forall i :: 0 <= i < |s| ==> IsHex(s[i])
  }

  /** Nothing, or an extension introduced by a semicolon or by white space. */
  predicate ExtOk(ext: Bytes) {
    LF !in ext && (ext == [] || ext[0] in {SEMI, 32, 9})
  }

  predicate SizeOk(size: Bytes, n: nat) {
    size != [] && AllHex(size) && HexValue(size) == n && n <= SIZE_MAX
  }

  predicate ChunkOk(c: Chunk) {
    SizeOk(c.size, |c.data|) && ExtOk(c.ext) && c.data != []
  }

  /** Bytes without carriage returns. */
  function Strip(s: Bytes): (t: Bytes)
    ensures s != [] && s[0] != CR ==> t != [] && t[0] == s[0]
  {
    if s == [] then [] else (if s[0] == CR then [] else [s[0]]) + Strip(s[1..])
  }

  predicate TrailerOk(t: Bytes) {
    LF !in t && Strip(t) != []
  }

  predicate WellFormed(m: Message) {
    && (forall i :: 0 <= i < |m.chunks| ==> ChunkOk(m.chunks[i]))
    && SizeOk(m.zero, 0) && ExtOk(m.lastExt)
    && (forall i :: 0 <= i < |m.trailers| ==> TrailerOk(m.trailers[i]))
  }

  function Lines(trailers: seq<Bytes>): Bytes {
    if trailers == [] then CRLF else trailers[0] + CRLF + Lines(trailers[1..])
  }

  function Encode(m: Message): Bytes
    decreases |m.chunks|
  {
    if m.chunks == [] then m.zero + m.lastExt + CRLF + Lines(m.trailers)
    else
      var c := m.chunks[0];
      c.size + c.ext + CRLF + (c.data + CRLF + Encode(m.(chunks := m.chunks[1..])))
  }

  function Payload(chunks: seq<Chunk>): Bytes {
    if chunks == [] then [] else chunks[0].data + Payload(chunks[1..])
  }

  // ---- lines ------------------------------------------------------------------

  lemma {:induction false} StripConcat(a: Bytes, b: Bytes)
    ensures Strip(a + b) == Strip(a) + Strip(b)
  {
    if a == [] {
      assert a + b == b;
    } else {
      assert (a + b)[1..] == a[1..] + b;
      StripConcat(a[1..], b);
    }
  }

  lemma {:induction false} StripHex(s: Bytes)
    requires AllHex(s)
    ensures Strip(s) == s
  {
    if s != [] {
      assert IsHex(s[0]);
      assert AllHex(s[1..]);
      StripHex(s[1..]);
      assert s == [s[0]] + s[1..];
    }
  }

  /** A one-byte read delivers one byte. */
  lemma OneByte(net: Net, b: byte, t: Bytes)
    requires net.rest == [b] + t
    ensures After(net, 1).rest == t
  {
  }

  lemma StripStep(text: Bytes, line: Bytes)
    requires line != []
    ensures text + Strip(line) == (if line[0] == CR then text else text + [line[0]]) + Strip(line[1..])
  {
    var one: Bytes := if line[0] == CR then [] else [line[0]];
    assert Strip(line) == one + Strip(line[1..]);
    assert text + (one + Strip(line[1..])) == text + one + Strip(line[1..]);
  }

  lemma {:induction false} ReadsLine(net: Net, text: Bytes, line: Bytes, suffix: Bytes)
    requires net.rest == line + ([LF] + suffix) && LF !in line
    ensures ReadLine(net, text).ok && ReadLine(net, text).text == text + Strip(line)
    ensures ReadLine(net, text).net.rest == suffix
    decreases |line|
  {
    if line == [] {
      assert net.rest == [LF] + suffix;
      OneByte(net, LF, suffix);
      assert text + Strip(line) == text;
    } else {
      var b, after := line[0], line[1..] + ([LF] + suffix);
      assert net.rest == [b] + after && b != LF;
      OneByte(net, b, after);
      var t := if b == CR then text else text + [b];
      assert ReadLine(net, text) == ReadLine(After(net, 1), t);
      ReadsLine(After(net, 1), t, line[1..], suffix);
      StripStep(text, line);
    }
  }

  lemma ReadsCrlfLine(net: Net, line: Bytes, suffix: Bytes)
    requires net.rest == line + CRLF + suffix && LF !in line
    ensures var l := ReadLine(net, []); l.ok && l.text == Strip(line) && l.net.rest == suffix
  {
    assert net.rest == (line + [CR]) + ([LF] + suffix);
    ReadsLine(net, [], line + [CR], suffix);
    StripConcat(line, [CR]);
    assert Strip([CR]) == [];
  }

  lemma {:induction false} HexThen(s: Bytes, t: Bytes)
    requires AllHex(s) && (t == [] || !IsHex(t[0]))
    ensures HexPrefix(s + t) == s
  {
    if s == [] {
      assert s + t == t;
    } else {
      assert (s + t)[0] == s[0] && (s + t)[1..] == s[1..] + t;
      HexThen(s[1..], t);
      assert s == [s[0]] + s[1..];
    }
  }

  lemma {:induction false} CutThen(s: Bytes, t: Bytes)
    requires AllHex(s)
    ensures CutExtension(s + t) == s + CutExtension(t)
  {
    if s == [] {
      assert s + t == t;
    } else {
      assert IsHex(s[0]);
      assert (s + t)[0] == s[0] && (s + t)[1..] == s[1..] + t;
      CutThen(s[1..], t);
      assert s == [s[0]] + s[1..];
    }
  }

  /** A size line means its number, whatever the extension. */
  lemma SizeLine(size: Bytes, ext: Bytes, n: nat)
    requires SizeOk(size, n) && ExtOk(ext)
    ensures ChunkSize(Strip(size + ext)) == Some(n)
  {
    StripConcat(size, ext);
    StripHex(size);
    var e := Strip(ext);
    CutThen(size, e);
    assert e == [] || e[0] == ext[0];
    HexThen(size, CutExtension(e));
  }

  lemma ReadsSize(net: Net, size: Bytes, ext: Bytes, n: nat, suffix: Bytes)
    requires SizeOk(size, n) && ExtOk(ext) && net.rest == size + ext + CRLF + suffix
    ensures var l := ReadLine(net, []); l.ok && ChunkSize(l.text) == Some(n) && l.net.rest == suffix
  {
    assert forall i :: 0 <= i < |size| ==> IsHex(size[i]);
    assert LF !in size + ext;
    ReadsCrlfLine(net, size + ext, suffix);
    SizeLine(size, ext, n);
  }

  lemma {:induction false} ReadsTrailers(net: Net, trailers: seq<Bytes>, suffix: Bytes)
    requires net.rest == Lines(trailers) + suffix
    requires forall i :: 0 <= i < |trailers| ==> TrailerOk(trailers[i])
    ensures var l := ReadTrailers(net); l.ok && l.net.rest == suffix
    decreases |trailers|
  {
    if trailers == [] {
      assert net.rest == [] + CRLF + suffix;
      ReadsCrlfLine(net, [], suffix);
    } else {
      assert TrailerOk(trailers[0]);
      var rest := Lines(trailers[1..]) + suffix;
      assert net.rest == trailers[0] + CRLF + rest;
      ReadsCrlfLine(net, trailers[0], rest);
      ReadsTrailers(ReadLine(net, []).net, trailers[1..], suffix);
    }
  }

  lemma {:induction false} SkipsExactly(net: Net, skipped: Bytes, suffix: Bytes)
    requires skipped != [] && net.rest == skipped + suffix
    ensures var s := ReadExact(net, |skipped|); s.ok && s.net.rest == suffix
    decreases |skipped|
  {
    var want := Min(|skipped|, 64);
    var n := Size(net, want);
    assert 0 < n <= |skipped|;
    if n < |skipped| {
      assert After(net, want).rest == skipped[n..] + suffix;
      SkipsExactly(After(net, want), skipped[n..], suffix);
    } else {
      assert After(net, want).rest == suffix;
    }
  }

  // ---- the decoder mid-message ------------------------------------------------

  /** What is left of a chunk, with the CRLF that ends it. */
  function Frame(body: Bytes): Bytes {
    if body == [] then [] else body + CRLF
  }

  /** The decoder will yield `body`, the rest of the current chunk, and then the chunks of `m`,
      and will leave the stream at `suffix`. */
  predicate Owes(d: Decoder, rest: Bytes, body: Bytes, m: Message, suffix: Bytes) {
    if d.finished then body == [] && m.chunks == [] && rest == suffix
    else WellFormed(m) && |body| == d.remaining && rest == Frame(body) + (Encode(m) + suffix)
  }

  lemma ReadsPart(net: Net, want: nat, body: Bytes, w: Bytes)
    requires 0 < want <= |body| && net.rest == body + w
    ensures var n := Size(net, want);
            0 < n <= want && net.rest[..n] == body[..n] && After(net, want).rest == body[n..] + w
  {
  }

  /** A read inside a chunk. */
  lemma PayloadBytes(d: Decoder, net: Net, cap: nat, body: Bytes, w: Bytes)
    requires cap > 0 && !d.finished && d.remaining == |body| > 0 && net.rest == Frame(body) + w
    ensures var r := ReadPayload(d, net, cap);
            && r.out.Ok? && 0 < |r.out.data| <= |body| && r.out.data == body[..|r.out.data|]
            && !r.d.finished && r.d.remaining == |body| - |r.out.data|
            && r.net.rest == Frame(body[|r.out.data|..]) + w
  {
    var want := Min(cap, d.remaining);
    var n := Size(net, want);
    assert net.rest == body + (CRLF + w);
    ReadsPart(net, want, body, CRLF + w);
    if n == |body| {
      assert body[n..] == [] && [] + (CRLF + w) == CRLF + w;
      SkipsExactly(After(net, want), CRLF, w);
      assert Frame([]) + w == w;
    } else {
      assert body[n..] + (CRLF + w) == Frame(body[n..]) + w;
    }
  }

  lemma PayloadStep(d: Decoder, net: Net, cap: nat, body: Bytes, m: Message, suffix: Bytes)
    requires cap > 0 && !d.finished && d.remaining > 0 && Owes(d, net.rest, body, m, suffix)
    ensures var r := ReadPayload(d, net, cap);
            && r.out.Ok? && 0 < |r.out.data| <= |body| && r.out.data == body[..|r.out.data|]
            && Owes(r.d, r.net.rest, body[|r.out.data|..], m, suffix)
  {
    PayloadBytes(d, net, cap, body, Encode(m) + suffix);
  }

  /** A read at a chunk boundary with another chunk to come. */
  lemma ChunkStep(d: Decoder, net: Net, cap: nat, m: Message, suffix: Bytes)
    requires cap > 0 && !d.finished && Owes(d, net.rest, [], m, suffix) && m.chunks != []
    ensures var r := ReadSize(d, net, cap);
            var c, m' := m.chunks[0], m.(chunks := m.chunks[1..]);
            && r.out.Ok? && 0 < |r.out.data| <= |c.data| && r.out.data == c.data[..|r.out.data|]
            && Owes(r.d, r.net.rest, c.data[|r.out.data|..], m', suffix)
  {
    var c, m' := m.chunks[0], m.(chunks := m.chunks[1..]);
    assert ChunkOk(c) && WellFormed(m');
    var after := Frame(c.data) + (Encode(m') + suffix);
    assert net.rest == c.size + c.ext + CRLF + after;
    ReadsSize(net, c.size, c.ext, |c.data|, after);
    PayloadStep(d.(remaining := |c.data|), ReadLine(net, []).net, cap, c.data, m', suffix);
  }

  /** The read that finds the last chunk. */
  lemma LastStep(d: Decoder, net: Net, cap: nat, m: Message, suffix: Bytes)
    requires !d.finished && Owes(d, net.rest, [], m, suffix) && m.chunks == []
    ensures var r := ReadSize(d, net, cap); r.out == Ok([]) && r.d.finished && r.net.rest == suffix
  {
    var after := Lines(m.trailers) + suffix;
    assert net.rest == m.zero + m.lastExt + CRLF + after;
    ReadsSize(net, m.zero, m.lastExt, 0, after);
    ReadsTrailers(ReadLine(net, []).net, m.trailers, suffix);
  }

  lemma Regroup(a: Bytes, n: nat, b: Bytes)
    requires n <= |a|
    ensures a + b == a[..n] + (a[n..] + b)
  {
  }

  /** One read: some of what is owed, nothing only when nothing is owed, and the rest stays owed. */
  lemma ReadStep(d: Decoder, net: Net, cap: nat, body: Bytes, m: Message, suffix: Bytes)
    returns (body': Bytes, m': Message)
    requires cap > 0 && Owes(d, net.rest, body, m, suffix)
    ensures var r := ReadSome(d, net, cap);
            && r.out.Ok?
            && body + Payload(m.chunks) == r.out.data + (body' + Payload(m'.chunks))
            && (r.out.data == [] ==> r.d.finished)
            && Owes(r.d, r.net.rest, body', m', suffix)
  {
    if d.finished {
      body', m' := body, m;
    } else if d.remaining > 0 {
      PayloadStep(d, net, cap, body, m, suffix);
      var n := |ReadPayload(d, net, cap).out.data|;
      body', m' := body[n..], m;
      Regroup(body, n, Payload(m.chunks));
    } else if m.chunks != [] {
      body', m' := NextChunk(d, net, cap, m, suffix);
      assert body + Payload(m.chunks) == Payload(m.chunks);
    } else {
      LastStep(d, net, cap, m, suffix);
      body', m' := [], m;
    }
  }

  lemma NextChunk(d: Decoder, net: Net, cap: nat, m: Message, suffix: Bytes) returns (body': Bytes, m': Message)
    requires cap > 0 && !d.finished && Owes(d, net.rest, [], m, suffix) && m.chunks != []
    ensures var r := ReadSize(d, net, cap);
            && r.out.Ok? && r.out.data != []
            && Payload(m.chunks) == r.out.data + (body' + Payload(m'.chunks))
            && Owes(r.d, r.net.rest, body', m', suffix)
  {
    ChunkStep(d, net, cap, m, suffix);
    var n := |ReadSize(d, net, cap).out.data|;
    body', m' := m.chunks[0].data[n..], m.(chunks := m.chunks[1..]);
    Regroup(m.chunks[0].data, n, Payload(m'.chunks));
  }

  // ---- whole runs -------------------------------------------------------------

  /** The bytes delivered by a run of reads. */
  function Delivered(outs: seq<Outcome>): Bytes {
    if outs == [] then [] else (if outs[0].Ok? then outs[0].data else []) + Delivered(outs[1..])
  }

  lemma {:induction false} DrainOwes(d: Decoder, net: Net, caps: seq<nat>, body: Bytes, m: Message, suffix: Bytes)
    requires (forall i :: 0 <= i < |caps| ==> caps[i] > 0) && Owes(d, net.rest, body, m, suffix)
    ensures var t := Drain(d, net, caps);
            && (forall i :: 0 <= i < |caps| ==> t.outs[i].Ok?)
            && Delivered(t.outs) <= body + Payload(m.chunks)
            && (t.d.finished ==> Delivered(t.outs) == body + Payload(m.chunks) && t.net.rest == suffix)
            && (d.finished || |body| + |Payload(m.chunks)| < |caps| ==> t.d.finished)
            && (Ok([]) in t.outs ==> t.d.finished)
    decreases |caps|
  {
    if caps != [] {
      var body', m' := ReadStep(d, net, caps[0], body, m, suffix);
      var r := ReadSome(d, net, caps[0]);
      DrainOwes(r.d, r.net, caps[1..], body', m', suffix);
    }
  }

  /** Every well-formed message, every fragmentation of it into reads and every sequence of nonempty
      buffers: no error, the concatenated chunk data in order, then empty reads for ever, with the
      stream left exactly after the blank line that ends the trailers. */
  lemma DecodesEveryMessage(m: Message, suffix: Bytes, net: Net, caps: seq<nat>)
    requires WellFormed(m) && net.rest == Encode(m) + suffix
    requires forall i :: 0 <= i < |caps| ==> caps[i] > 0
    ensures var t := Drain(Decoder(0, false), net, caps);
            && (forall i :: 0 <= i < |caps| ==> t.outs[i].Ok?)
            && Delivered(t.outs) <= Payload(m.chunks)
            && (Ok([]) in t.outs ==> Delivered(t.outs) == Payload(m.chunks) && t.net.rest == suffix)
            && (|caps| > |Payload(m.chunks)| ==> Delivered(t.outs) == Payload(m.chunks) && t.net.rest == suffix)
  {
    assert [] + Encode(m) + suffix == Encode(m) + suffix;
    DrainOwes(Decoder(0, false), net, caps, [], m, suffix);
  }

  /** Once finished, a decoder delivers nothing and touches the stream no more. */
  lemma {:induction false} FinishedForEver(d: Decoder, net: Net, caps: seq<nat>)
    requires d.finished
    ensures var t := Drain(d, net, caps);
            t.d == d && t.net == net && forall i :: 0 <= i < |caps| ==> t.outs[i] == Ok([])
    decreases |caps|
  {
    if caps != [] { FinishedForEver(d, net, caps[1..]); }
  }

  /** The stream ends before the first byte of a chunk's data that is still due. */
  predicate CutShort(d: Decoder, net: Net) {
    if d.remaining > 0 then net.rest == []
    else
      var l := ReadLine(net, []);
      l.ok && l.net.rest == [] && ChunkSize(l.text).Some? && ChunkSize(l.text).value > 0
  }

  /** An empty read that is not the end of the body happens exactly when the stream ends where chunk
      data is due and the transport reports its end as an empty read instead of an error. */
  lemma FalseEndIff(d: Decoder, net: Net, cap: nat)
    requires cap > 0
    ensures var r := ReadSome(d, net, cap);
            (r.out == Ok([]) && !r.d.finished) <==> (!d.finished && CutShort(d, net) && net.end == EmptyRead)
  {
    if d.remaining == 0 {
      var l := ReadLine(net, []);
      if l.ok && ChunkSize(l.text).Some? {
        PayloadEmptyIff(d.(remaining := ChunkSize(l.text).value), l.net, cap);
      }
    } else {
      PayloadEmptyIff(d, net, cap);
    }
  }

  lemma PayloadEmptyIff(d: Decoder, net: Net, cap: nat)
    requires cap > 0
    ensures d.remaining > 0 ==>
              var r := ReadPayload(d, net, cap); (r.out == Ok([])) <==> (net.rest == [] && net.end == EmptyRead)
    ensures d.remaining > 0 && ReadPayload(d, net, cap).out == Ok([]) ==> ReadPayload(d, net, cap).d == d
  {
    if d.remaining > 0 && net.rest == [] && net.end == EmptyRead {
      assert net.rest[..Size(net, Min(cap, d.remaining))] == [];
    }
  }
}
