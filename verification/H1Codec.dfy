/** The codec as it runs: loops over lines and reads, body sources that update themselves, and the
    pump, each proved equal to its functional form. */
module H1Codec {
  import opened Common
  import opened Network
  import opened Headers
  import opened H1Head
  import opened H1Body
  import opened ChunkedSource
  import opened H1BodyProofs
  import CM = ChunkedModel

  // ---- parsing ----------------------------------------------------------------

  lemma FieldsStep(hs: seq<Field>, s: Bytes)
    requires s != [] && LineAt(s) != []
    ensures hs + ParseFields(s) == hs + ParseField(LineAt(s)) + ParseFields(AfterLine(s))
  {
  }

  method ParseFieldLine(line: Bytes) returns (fs: seq<Field>)
    ensures fs == ParseField(line)
  {
    var colon := FindByte(line, COLON);
    if colon == |line| {
      return [];
    }
    return [Field(line[..colon], TrimLeft(line[colon + 1..]))];
  }

  method ParseFieldLines(s: Bytes) returns (hs: seq<Field>)
    ensures hs == ParseFields(s)
  {
    hs := [];
    var rest := s;
    while rest != [] && LineAt(rest) != []
      invariant hs + ParseFields(rest) == ParseFields(s)
      decreases |rest|
    {
      FieldsStep(hs, rest);
      var fs := ParseFieldLine(LineAt(rest));
      rest := AfterLine(rest);
      hs := hs + fs;
    }
  }

  method ParseHeaderBlock(raw: Bytes) returns (head: Option<Head>)
    ensures head == Parse(raw)
  {
    if raw == [] || raw[0] == LF {
      return None;
    }
    var rl := ParseRequestLine(LineAt(raw));
    if rl.method_ == [] || rl.target == [] {
      return None;
    }
    var t := ParseTarget(rl.target);
    var hs := ParseFieldLines(AfterLine(raw));
    var scheme, authority := t.scheme, t.authority;
    if !t.absolute {
      scheme := HTTP;
      var host := Get(hs, HOST);
      if host.Some? {
        authority := host.value;
      }
    }
    return Some(Head(rl.method_, t.path, rl.version, scheme, authority, t.absolute, hs, LengthOf(hs)));
  }

  method ParseResponseBlock(raw: Bytes) returns (head: Option<Response>)
    ensures head == ParseResponse(raw)
  {
    if raw == [] || raw[0] == LF {
      return None;
    }
    head := ParseStatusLine(LineAt(raw));
    if head.Some? {
      var hs := ParseFieldLines(AfterLine(raw));
      head := Some(head.value.(headers := hs, contentLength := LengthOf(hs)));
    }
  }

  // ---- reading ----------------------------------------------------------------

  /** What is read is as `H1BodyProofs.BlockExact` says. */
  method ReadHeaderBlock(stream: TransportStream, buf: Bytes) returns (f: Framed)
    modifies stream
    ensures f == ReadBlock(old(stream.net), buf) && stream.net == f.net
    decreases |stream.net.rest|
  {
    var r := stream.ReadSome(HEAD_READ);
    if r.Fail? || r.data == [] {
      return Cut(stream.net);
    }
    var all := buf + r.data;
    var pos := Find(all, END_OF_HEAD);
    if pos.Some? {
      return Framed(all[..pos.value + 4], all[pos.value + 4..], stream.net);
    }
    f := ReadHeaderBlock(stream, all);
  }

  // ---- body sources -----------------------------------------------------------

  class StreamBodySource {
    const stream: TransportStream
    var remaining: nat

    constructor (stream: TransportStream, remaining: nat)
      ensures this.stream == stream && this.remaining == remaining
    {
      this.stream, this.remaining := stream, remaining;
    }

    method ReadSome(cap: nat) returns (out: CM.Outcome)
      modifies this, stream
      ensures BodyRead(Length(remaining), stream.net, out) == ReadLength(old(remaining), old(stream.net), cap)
    {
      if remaining == 0 {
        return CM.Ok([]);
      }
      var r := stream.ReadSome(Min(cap, remaining));
      if r.Fail? {
        return CM.Err(CM.Transport);
      }
      remaining := remaining - |r.data|;
      return CM.Ok(r.data);
    }
  }

  class BufferBodySource {
    const data: Bytes
    var readPos: nat

    constructor (data: Bytes)
      ensures this.data == data && readPos == 0
    {
      this.data, readPos := data, 0;
    }

    method ReadSome(cap: nat, ghost net: Net) returns (out: CM.Outcome)
      requires readPos <= |data|
      modifies this
      ensures readPos <= |data|
      ensures BodyRead(Buffer(data[readPos..]), net, out) == ReadBuffer(old(data[readPos..]), net, cap)
    {
      var n := Min(cap, |data| - readPos);
      assert data[readPos..][n..] == data[readPos + n..] && data[readPos..][..n] == data[readPos..readPos + n];
      out := CM.Ok(data[readPos..readPos + n]);
      readPos := readPos + n;
    }
  }

  class StreamEofBodySource {
    const stream: TransportStream

    constructor (stream: TransportStream)
      ensures this.stream == stream
    {
      this.stream := stream;
    }

    method ReadSome(cap: nat) returns (out: CM.Outcome)
      modifies stream
      ensures BodyRead(UntilClose, stream.net, out) == ReadUntilClose(old(stream.net), cap)
    {
      var r := stream.ReadSome(cap);
      match r
      case Fail(eof) => out := if eof then CM.Ok([]) else CM.Err(CM.Transport);
      case Got(data) => out := CM.Ok(data);
    }
  }

  datatype Source =
    | NoSource
    | OfStream(sized: StreamBodySource)
    | OfBuffer(buffer: BufferBodySource)
    | OfChunks(chunks: ChunkedBodySource)
    | OfEof(eof: StreamEofBodySource)
  {
    ghost function Objects(): set<object> {
      match this
      case NoSource => {}
      case OfStream(s) => {s}
      case OfBuffer(b) => {b}
      case OfChunks(c) => {c}
      case OfEof(e) => {e}
    }

    ghost predicate On(stream: TransportStream)
      reads Objects()
    {
      match this
      case NoSource => true
      case OfStream(s) => s.stream == stream
      case OfBuffer(b) => InRange()
      case OfChunks(c) => c.stream == stream
      case OfEof(e) => e.stream == stream
    }

    ghost predicate InRange()
      reads Objects()
    {
      match this
      case OfBuffer(b) => b.readPos <= |b.data|
      case _ => true
    }

    ghost function Value(): Body
      reads Objects()
      requires InRange()
    {
      match this
      case NoSource => NoBody
      case OfStream(s) => Length(s.remaining)
      case OfBuffer(b) => Buffer(b.data[b.readPos..])
      case OfChunks(c) => Chunks(c.State())
      case OfEof(e) => UntilClose
    }
  }

  /** The object that reads the body `b` from where the head ended. */
  method BuildSource(b: Body, stream: TransportStream) returns (src: Source)
    requires b.Chunks? ==> b.decoder == CM.Decoder(0, false)
    ensures src.On(stream) && src.Value() == b && fresh(src.Objects())
  {
    match b
    case NoBody => src := NoSource;
    case Length(n) =>
      var sized := new StreamBodySource(stream, n);
      src := OfStream(sized);
    case Buffer(data) =>
      var buffer := new BufferBodySource(data);
      src := OfBuffer(buffer);
    case Chunks(_) =>
      var chunks := new ChunkedBodySource(stream);
      src := OfChunks(chunks);
    case UntilClose =>
      var eof := new StreamEofBodySource(stream);
      src := OfEof(eof);
  }

  method ReadRequestHead(stream: TransportStream) returns (m: RequestRead)
    modifies stream
    ensures m == ReadRequest(old(stream.net)) && stream.net == m.net
    ensures m.Request? ==> !m.body.Chunks?
  {
    var f := ReadHeaderBlock(stream, []);
    if f.Cut? {
      return NoRequest(stream.net);
    }
    var head := ParseHeaderBlock(f.raw);
    if head.None? {
      return NoRequest(stream.net);
    }
    var h := head.value;
    return Request(h, RequestBody(h, f.prefix), KeepAlive(h.headers, h.version), stream.net);
  }

  /** Parses a request and builds the source its body is to be read from. */
  method ParseRequest(stream: TransportStream) returns (m: RequestRead, src: Source)
    modifies stream
    ensures m == ReadRequest(old(stream.net)) && stream.net == m.net
    ensures fresh(src.Objects()) && src.On(stream)
    ensures src.Value() == if m.Request? then m.body else NoBody
  {
    m := ReadRequestHead(stream);
    src := BuildSource(if m.Request? then m.body else NoBody, stream);
  }

  method ReadReplyHead(stream: TransportStream) returns (m: ResponseRead)
    modifies stream
    ensures m == ReadResponse(old(stream.net)) && stream.net == m.net
    ensures m.Replied? && m.body.Chunks? ==> m.body.decoder == CM.Decoder(0, false)
  {
    var f := ReadHeaderBlock(stream, []);
    if f.Cut? {
      return NoResponse(stream.net);
    }
    var head := ParseResponseBlock(f.raw);
    if head.None? {
      return NoResponse(stream.net);
    }
    var r := head.value;
    var body := ResponseBody(r, f.prefix);
    var keepAlive := KeepAlive(r.headers, r.version);
    if body.UntilClose? {
      keepAlive := false;
    }
    return Replied(r, body, keepAlive, stream.net);
  }

  /** Parses a response and builds the source its body is to be read from. */
  method ParseReply(stream: TransportStream) returns (m: ResponseRead, src: Source)
    modifies stream
    ensures m == ReadResponse(old(stream.net)) && stream.net == m.net
    ensures fresh(src.Objects()) && src.On(stream)
    ensures src.Value() == if m.Replied? then m.body else NoBody
  {
    m := ReadReplyHead(stream);
    src := BuildSource(if m.Replied? then m.body else NoBody, stream);
  }

  method ReadSource(src: Source, stream: TransportStream, cap: nat) returns (out: CM.Outcome)
    requires src.On(stream)
    modifies src.Objects(), stream
    ensures src.On(stream)
    ensures BodyRead(src.Value(), stream.net, out) == ReadBody(old(src.Value()), old(stream.net), cap)
  {
    match src
    case NoSource => out := CM.Ok([]);
    case OfStream(s) => out := s.ReadSome(cap);
    case OfBuffer(b) => out := b.ReadSome(cap, stream.net);
    case OfChunks(c) => out := c.ReadSome(cap);
    case OfEof(e) => out := e.ReadSome(cap);
  }

  /** A destination that accepts `quota` writes and fails the next one. */
  class Sink {
    var written: Bytes
    var quota: nat

    method Write(data: Bytes) returns (ok: bool)
      modifies this
      ensures ok <==> old(quota) > 0
      ensures ok ==> quota == old(quota) - 1 && written == old(written) + data
      ensures !ok ==> quota == old(quota) && written == old(written)
    {
      ok := quota > 0;
      if ok {
        written, quota := written + data, quota - 1;
      }
    }
  }

  lemma Apart(src: Source, stream: TransportStream, sink: Sink)
    ensures stream !in src.Objects() && sink !in src.Objects()
  {
  }

  /** One turn of the pump: a read and, unless it ends the body, a write. */
  method PumpTurn(src: Source, stream: TransportStream, sink: Sink) returns (more: bool, ok: bool, ghost r: BodyRead)
    requires src.On(stream)
    modifies src.Objects(), stream, sink
    ensures src.On(stream)
    ensures r == ReadBody(old(src.Value()), old(stream.net), PUMP_READ) && r.body == src.Value() && r.net == stream.net
    ensures more <==> r.out.Ok? && r.out.data != [] && old(sink.quota) > 0
    ensures more ==> sink.quota == old(sink.quota) - 1 && sink.written == old(sink.written) + r.out.data
    ensures !more ==> sink.written == old(sink.written) && ok == (r.out.Ok? && r.out.data == [])
  {
    Apart(src, stream, sink);
    var out := ReadSource(src, stream, PUMP_READ);
    r := BodyRead(src.Value(), stream.net, out);
    if out.Err? || out.data == [] {
      return false, out.Ok?, r;
    }
    more := sink.Write(out.data);
    ok := false;
  }

  lemma Regroup(a: Bytes, b: Bytes, c: Bytes)
    ensures a + b + c == a + (b + c)
  {
  }

  /** Copies the body to the sink; what arrives is as `H1BodyProofs.PumpDue` says. */
  method PumpBodyToStream(src: Source, stream: TransportStream, sink: Sink) returns (ok: bool)
    requires src.On(stream)
    modifies src.Objects(), stream, sink
    ensures src.On(stream)
    ensures var p := Pump(old(src.Value()), old(stream.net), old(sink.quota));
            sink.written == old(sink.written) + p.sent && ok == p.ok && src.Value() == p.body && stream.net == p.net
    decreases |stream.net.rest| + Left(src.Value())
  {
    ghost var r;
    var more;
    more, ok, r := PumpTurn(src, stream, sink);
    PumpUnfold(old(src.Value()), old(stream.net), old(sink.quota));
    ReadProgress(old(src.Value()), old(stream.net), PUMP_READ);
    if more {
      Regroup(old(sink.written), r.out.data, Pump(r.body, r.net, sink.quota).sent);
      ok := PumpBodyToStream(src, stream, sink);
    }
  }

  // ---- writing ----------------------------------------------------------------

  lemma BlockStep(w: Bytes, fs: seq<Field>, i: nat)
    requires i < |fs|
    ensures w + Block(FieldLines(fs[i..])) == w + (FieldLine(fs[i]) + CRLF) + Block(FieldLines(fs[i + 1..]))
  {
    assert FieldLines(fs[i..])[1..] == FieldLines(fs[i + 1..]);
  }

  /** The field lines; the blank line that completes the block is the caller's. */
  method ToWire(fs: seq<Field>) returns (w: Bytes)
    ensures w + CRLF == Block(FieldLines(fs))
  {
    w := [];
    assert fs[0..] == fs;
    for i := 0 to |fs|
      invariant w + Block(FieldLines(fs[i..])) == Block(FieldLines(fs))
    {
      BlockStep(w, fs, i);
      w := w + (FieldLine(fs[i]) + CRLF);
    }
  }

  /** Writes a first line and fields in one write, and then pumps the body behind them. */
  method WriteMessage(line: Bytes, fs: seq<Field>, src: Source, stream: TransportStream, sink: Sink) returns (ok: bool)
    requires src.On(stream)
    modifies src.Objects(), stream, sink
    ensures src.On(stream)
    ensures old(sink.quota) == 0 ==> !ok && sink.written == old(sink.written)
    ensures old(sink.quota) > 0 ==>
              var p := Pump(old(src.Value()), old(stream.net), old(sink.quota) - 1);
              && sink.written == old(sink.written) + Block([line] + FieldLines(fs)) + p.sent
              && ok == p.ok && stream.net == p.net
  {
    Apart(src, stream, sink);
    var fields := ToWire(fs);
    assert ([line] + FieldLines(fs))[1..] == FieldLines(fs);
    assert Block([line] + FieldLines(fs)) == line + CRLF + (fields + CRLF);
    ok := sink.Write(line + CRLF + (fields + CRLF));
    if ok {
      ok := PumpBodyToStream(src, stream, sink);
    }
  }

  method WriteRequest(h: Head, src: Source, stream: TransportStream, sink: Sink) returns (ok: bool)
    requires src.On(stream)
    modifies src.Objects(), stream, sink
    ensures old(sink.quota) == 0 ==> !ok && sink.written == old(sink.written)
    ensures old(sink.quota) > 0 ==>
              var p := Pump(old(src.Value()), old(stream.net), old(sink.quota) - 1);
              sink.written == old(sink.written) + Print(h) + p.sent && ok == p.ok && stream.net == p.net
  {
    ok := WriteMessage(PrintLine(h), h.headers, src, stream, sink);
  }

  method WriteResponse(r: Response, src: Source, stream: TransportStream, sink: Sink) returns (ok: bool)
    requires src.On(stream)
    modifies src.Objects(), stream, sink
    ensures old(sink.quota) == 0 ==> !ok && sink.written == old(sink.written)
    ensures old(sink.quota) > 0 ==>
              var p := Pump(old(src.Value()), old(stream.net), old(sink.quota) - 1);
              sink.written == old(sink.written) + PrintResponse(r) + p.sent && ok == p.ok && stream.net == p.net
  {
    ok := WriteMessage(PrintStatusLine(r), r.headers, src, stream, sink);
  }
}
