/** Reading a message: the head, the source of its body, and the pump that forwards it. */
module H1Body {
  import opened Common
  import opened Network
  import opened Headers
  import opened H1Head
  import ChunkedModel

  const HEAD_READ := 4096
  const PUMP_READ := 8192

  const CHUNKED: Bytes := [99, 104, 117, 110, 107, 101, 100]                            // chunked
  const HEAD_METHOD: Bytes := [72, 69, 65, 68]                                          // HEAD

  // ---- the header block -------------------------------------------------------

  /** A header block, the bytes read after it, and the stream left behind. */
  datatype Framed = Cut(net: Net) | Framed(raw: Bytes, prefix: Bytes, net: Net)

  /** Reads until the buffer holds a blank line. */
  function ReadBlock(net: Net, buf: Bytes): (f: Framed)
    ensures f.net.end == net.end
    decreases |net.rest|
  {
    var net1 := After(net, HEAD_READ);
    match Pull(net, HEAD_READ)
    case Fail(_) => Cut(net1)
    case Got(data) =>
      if data == [] then Cut(net1)
      else
        match Find(buf + data, END_OF_HEAD)
        case None => ReadBlock(net1, buf + data)
        case Some(pos) => Framed((buf + data)[..pos + 4], (buf + data)[pos + 4..], net1)
  }

  // ---- body sources -----------------------------------------------------------

  datatype Body =
    | NoBody
    | Buffer(data: Bytes)                    // the unread part of captured bytes
    | Length(remaining: nat)
    | Chunks(decoder: ChunkedModel.Decoder)
    | UntilClose

  datatype BodyRead = BodyRead(body: Body, net: Net, out: ChunkedModel.Outcome)

  function ReadBuffer(data: Bytes, net: Net, cap: nat): BodyRead {
    var n := Min(cap, |data|);
    BodyRead(Buffer(data[n..]), net, ChunkedModel.Ok(data[..n]))
  }

  function ReadLength(remaining: nat, net: Net, cap: nat): BodyRead {
    if remaining == 0 then BodyRead(Length(0), net, ChunkedModel.Ok([]))
    else
      var want := Min(cap, remaining);
      match Pull(net, want)
      case Fail(_) => BodyRead(Length(remaining), After(net, want), ChunkedModel.Err(ChunkedModel.Transport))
      case Got(data) => BodyRead(Length(remaining - |data|), After(net, want), ChunkedModel.Ok(data))
  }

  function EndOfFile(eof: bool): ChunkedModel.Outcome {
    if eof then ChunkedModel.Ok([]) else ChunkedModel.Err(ChunkedModel.Transport)
  }

  /** End of stream is end of body. */
  function ReadUntilClose(net: Net, cap: nat): BodyRead {
    match Pull(net, cap)
    case Fail(eof) => BodyRead(UntilClose, After(net, cap), EndOfFile(eof))
    case Got(data) => BodyRead(UntilClose, After(net, cap), ChunkedModel.Ok(data))
  }

  /** One `async_read_some` on a body source. */
  function ReadBody(b: Body, net: Net, cap: nat): BodyRead {
    match b
    case NoBody => BodyRead(b, net, ChunkedModel.Ok([]))
    case Buffer(data) => ReadBuffer(data, net, cap)
    case Length(remaining) => ReadLength(remaining, net, cap)
    case Chunks(d) =>
      var r := ChunkedModel.ReadSome(d, net, cap);
      BodyRead(Chunks(r.d), r.net, r.out)
    case UntilClose => ReadUntilClose(net, cap)
  }

  function Left(b: Body): nat {
    if b.Buffer? then |b.data| else 0
  }

  predicate Advances(r: BodyRead, left: nat) {
    r.out.Ok? && r.out.data != [] ==> |r.net.rest| + Left(r.body) < left
  }

  lemma StreamProgress(remaining: nat, net: Net, cap: nat)
    requires cap > 0
    ensures Advances(ReadLength(remaining, net, cap), |net.rest|)
  {
  }

  lemma CloseProgress(net: Net, cap: nat)
    requires cap > 0
    ensures Advances(ReadUntilClose(net, cap), |net.rest|)
  {
    if Pull(net, cap).Got? { assert |After(net, cap).rest| == |net.rest| - Size(net, cap); }
  }

  lemma BufferProgress(data: Bytes, net: Net, cap: nat)
    requires cap > 0
    ensures Advances(ReadBuffer(data, net, cap), |net.rest| + |data|)
  {
  }

  lemma ReadProgress(b: Body, net: Net, cap: nat)
    requires cap > 0
    ensures Advances(ReadBody(b, net, cap), |net.rest| + Left(b))
  {
    match b
    case NoBody =>
    case Buffer(data) => BufferProgress(data, net, cap);
    case Length(n) => StreamProgress(n, net, cap);
    case Chunks(d) => ChunkedModel.ReadShrinks(d, net, cap);
    case UntilClose => CloseProgress(net, cap);
  }

  // ---- the pump ---------------------------------------------------------------

  /** What a pump wrote, whether it reported success, and what it left behind. */
  datatype Pumped = Pumped(sent: Bytes, ok: bool, body: Body, net: Net)

  /** Copies the body; the destination accepts `quota` writes and fails the next one. */
  function Pump(b: Body, net: Net, quota: nat): Pumped
    decreases |net.rest| + Left(b)
  {
    ReadProgress(b, net, PUMP_READ);
    var r := ReadBody(b, net, PUMP_READ);
    if r.out.Err? || r.out.data == [] then Pumped([], r.out.Ok?, r.body, r.net)
    else if quota == 0 then Pumped([], false, r.body, r.net)
    else
      var p := Pump(r.body, r.net, quota - 1);
      p.(sent := r.out.data + p.sent)
  }

  // ---- whole messages ---------------------------------------------------------

  /** A body of `length` bytes of which `prefix` was read with the head: a prefix that does not
      cover the body is dropped. */
  function LengthBody(length: nat, prefix: Bytes): Body {
    if prefix == [] then if length > 0 then Length(length) else NoBody
    else if |prefix| >= length then Buffer(prefix[..length])
    else Length(length - |prefix|)
  }

  function RequestBody(h: Head, prefix: Bytes): Body {
    if h.contentLength.None? then NoBody else LengthBody(h.contentLength.value, prefix)
  }

  predicate Bodiless(status: nat) {
    status / 100 == 1 || status == 204 || status == 304
  }

  function ResponseBody(r: Response, prefix: Bytes): Body {
    if Bodiless(r.status) then NoBody
    else if Mentions(r.headers, TRANSFER_ENCODING, CHUNKED) then Chunks(ChunkedModel.Decoder(0, false))
    else if r.contentLength.Some? then LengthBody(r.contentLength.value, prefix)
    else UntilClose
  }

  datatype RequestRead = NoRequest(net: Net) | Request(head: Head, body: Body, keepAlive: bool, net: Net)

  function ReadRequest(net: Net): RequestRead {
    match ReadBlock(net, [])
    case Cut(net1) => NoRequest(net1)
    case Framed(raw, prefix, net1) =>
      match Parse(raw)
      case None => NoRequest(net1)
      case Some(h) => Request(h, RequestBody(h, prefix), KeepAlive(h.headers, h.version), net1)
  }

  datatype ResponseRead = NoResponse(net: Net) | Replied(head: Response, body: Body, keepAlive: bool, net: Net)

  function ReadResponse(net: Net): ResponseRead {
    match ReadBlock(net, [])
    case Cut(net1) => NoResponse(net1)
    case Framed(raw, prefix, net1) =>
      match ParseResponse(raw)
      case None => NoResponse(net1)
      case Some(r) =>
        var b := ResponseBody(r, prefix);
        Replied(r, b, !b.UntilClose? && KeepAlive(r.headers, r.version), net1)
  }

  /** The body the relay forwards: none in answer to HEAD. */
  function ForwardedBody(method_: Bytes, b: Body): Body {
    if method_ == HEAD_METHOD then NoBody else b
  }
}
