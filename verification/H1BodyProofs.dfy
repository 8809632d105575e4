/** Whole messages: what is read is what was sent, for every fragmentation. */
module H1BodyProofs {
  import opened Common
  import opened Network
  import opened Headers
  import opened H1Head
  import opened H1HeadProofs
  import opened H1Body
  import CM = ChunkedModel
  import CP = ChunkedProofs

  // ---- the header block -------------------------------------------------------

  lemma OccursInPrefix(s: Bytes, t: Bytes, pat: Bytes, i: nat)
    ensures OccursAt(s, pat, i) <==> OccursAt(s + t, pat, i) && i + |pat| <= |s|
  {
    if i + |pat| <= |s| { assert s[i..i + |pat|] == (s + t)[i..i + |pat|]; }
  }

  lemma FirstIs(s: Bytes, pat: Bytes, k: nat)
    requires OccursAt(s, pat, k) && forall j :: 0 <= j < k ==> !OccursAt(s, pat, j)
    ensures Find(s, pat) == Some(k)
  {
  }

  /** Searching a prefix of the input finds the same place, or the place ends beyond it. */
  lemma FindPrefix(s: Bytes, t: Bytes, pat: Bytes)
    ensures Find(s, pat).Some? ==> Find(s + t, pat) == Find(s, pat)
    ensures Find(s, pat).None? && Find(s + t, pat).Some? ==> Find(s + t, pat).value + |pat| > |s|
  {
    var k := Find(s, pat);
    if k.Some? {
      forall j | 0 <= j < k.value
        ensures !OccursAt(s + t, pat, j)
      {
        OccursInPrefix(s, t, pat, j);
      }
      OccursInPrefix(s, t, pat, k.value);
      FirstIs(s + t, pat, k.value);
    } else if Find(s + t, pat).Some? {
      OccursInPrefix(s, t, pat, Find(s + t, pat).value);
    }
  }

  lemma Split(buf: Bytes, data: Bytes, rest: Bytes, k: nat)
    requires k <= |buf + data|
    ensures (buf + data)[..k] == (buf + (data + rest))[..k]
    ensures (buf + data)[k..] + rest == (buf + (data + rest))[k..]
  {
    assert buf + (data + rest) == (buf + data) + rest;
  }

  /** However the bytes are cut into reads, the block ends at the first blank line, and the block,
      the bytes read with it and the bytes still to come are exactly the bytes sent. */
  lemma {:induction false} BlockExact(net: Net, buf: Bytes)
    requires Find(buf, END_OF_HEAD).None?
    ensures var whole := buf + net.rest; var k := Find(whole, END_OF_HEAD); var f := ReadBlock(net, buf);
            && (k.None? ==> f.Cut?)
            && (k.Some? ==> && f.Framed? && f.raw == whole[..k.value + 4]
                            && f.prefix + f.net.rest == whole[k.value + 4..])
    decreases |net.rest|
  {
    var net1 := After(net, HEAD_READ);
    var n := Size(net, HEAD_READ);
    var data := net.rest[..n];
    if net.rest == [] {
      assert buf + net.rest == buf;
    } else {
      assert net.rest == data + net1.rest;
      assert buf + net.rest == buf + data + net1.rest;
      FindPrefix(buf + data, net1.rest, END_OF_HEAD);
      var p := Find(buf + data, END_OF_HEAD);
      if p.Some? {
        Split(buf, data, net1.rest, p.value + 4);
      } else {
        BlockExact(net1, buf + data);
      }
    }
  }

  /** A block that is followed by anything is read as sent. */
  lemma BlockOf(net: Net, raw: Bytes, tail: Bytes)
    requires net.rest == raw + tail && |raw| >= 4 && Find(raw + tail, END_OF_HEAD) == Some(|raw| - 4)
    ensures var f := ReadBlock(net, []); f.Framed? && f.raw == raw && f.prefix + f.net.rest == tail
  {
    BlockExact(net, []);
    assert [] + net.rest == raw + tail;
    assert (raw + tail)[..|raw|] == raw && (raw + tail)[|raw|..] == tail;
  }

  // ---- bodies -----------------------------------------------------------------

  /** The source will yield `content` and leave the stream at `suffix`. */
  ghost predicate Due(b: Body, net: Net, content: Bytes, suffix: Bytes) {
    match b
    case NoBody => content == [] && net.rest == suffix
    case Buffer(data) => content == data && net.rest == suffix
    case Length(n) => n == |content| && net.rest == content + suffix
    case Chunks(d) =>
      exists body, m :: CP.Owes(d, net.rest, body, m, suffix) && content == body + CP.Payload(m.chunks)
    case UntilClose => net.rest == content && suffix == [] && net.end != Broken
  }

  lemma LengthStep(n: nat, net: Net, cap: nat, content: Bytes, suffix: Bytes)
    requires cap > 0 && n > 0 && Due(Length(n), net, content, suffix)
    ensures var r := ReadBody(Length(n), net, cap);
            && r.out.Ok? && r.out.data != [] && r.out.data <= content
            && Due(r.body, r.net, content[|r.out.data|..], suffix)
  {
    CP.ReadsPart(net, Min(cap, n), content, suffix);
  }

  lemma UntilCloseStep(net: Net, cap: nat)
    requires cap > 0 && net.end != Broken
    ensures var r := ReadBody(UntilClose, net, cap);
            r.out.Ok? && r.out.data + r.net.rest == net.rest && (r.out.data == [] ==> net.rest == [])
  {
  }

  lemma ChunksStep(d: CM.Decoder, net: Net, cap: nat, content: Bytes, suffix: Bytes) returns (content': Bytes)
    requires cap > 0 && Due(Chunks(d), net, content, suffix)
    ensures var r := ReadBody(Chunks(d), net, cap);
            && r.out.Ok? && content == r.out.data + content'
            && Due(r.body, r.net, content', suffix)
            && (r.out.data == [] ==> content' == [] && r.net.rest == suffix)
  {
    var body, m :| CP.Owes(d, net.rest, body, m, suffix) && content == body + CP.Payload(m.chunks);
    var body', m' := CP.ReadStep(d, net, cap, body, m, suffix);
    content' := body' + CP.Payload(m'.chunks);
  }

  /** One read: some of what is due, and nothing only at the end. */
  lemma ReadDue(b: Body, net: Net, cap: nat, content: Bytes, suffix: Bytes) returns (content': Bytes)
    requires cap > 0 && Due(b, net, content, suffix)
    ensures var r := ReadBody(b, net, cap);
            && r.out.Ok? && content == r.out.data + content'
            && Due(r.body, r.net, content', suffix)
            && (r.out.data == [] ==> content' == [] && r.net.rest == suffix)
  {
    match b
    case NoBody =>
      content' := [];
    case Buffer(data) =>
      content' := data[Min(cap, |data|)..];
      assert data == data[..Min(cap, |data|)] + content';
    case Length(n) =>
      if n == 0 {
        content' := [];
        assert content == [] && [] + suffix == suffix;
      } else {
        LengthStep(n, net, cap, content, suffix);
        content' := content[|ReadBody(b, net, cap).out.data|..];
      }
    case Chunks(d) =>
      content' := ChunksStep(d, net, cap, content, suffix);
    case UntilClose =>
      UntilCloseStep(net, cap);
      content' := ReadBody(b, net, cap).net.rest;
  }

  lemma PrefixBehind(a: Bytes, s: Bytes, t: Bytes)
    requires s <= t
    ensures a + s <= a + t
  {
  }

  /** A pump after its first read. */
  ghost function PumpOn(r: BodyRead, quota: nat): Pumped {
    if r.out.Err? || r.out.data == [] then Pumped([], r.out.Ok?, r.body, r.net)
    else if quota == 0 then Pumped([], false, r.body, r.net)
    else
      var p := Pump(r.body, r.net, quota - 1);
      p.(sent := r.out.data + p.sent)
  }

  lemma PumpUnfold(b: Body, net: Net, quota: nat)
    ensures Pump(b, net, quota) == PumpOn(ReadBody(b, net, PUMP_READ), quota)
  {
  }

  /** A pump writes the body in order and no more; success means all of it, with the stream left
      where the body ends; only the destination can make it fail. */
  lemma {:induction false} PumpDue(b: Body, net: Net, quota: nat, content: Bytes, suffix: Bytes)
    requires Due(b, net, content, suffix)
    ensures var p := Pump(b, net, quota);
            && p.sent <= content
            && (p.ok ==> p.sent == content && p.net.rest == suffix)
            && (quota >= |content| ==> p.ok)
    decreases |net.rest| + Left(b)
  {
    var content' := ReadDue(b, net, PUMP_READ, content, suffix);
    PumpUnfold(b, net, quota);
    var r := ReadBody(b, net, PUMP_READ);
    if r.out.data != [] && quota > 0 {
      ReadProgress(b, net, PUMP_READ);
      PumpDue(r.body, r.net, quota - 1, content', suffix);
      PrefixBehind(r.out.data, Pump(r.body, r.net, quota - 1).sent, content');
    }
  }

  /** A body cut short by the peer is reported as complete exactly when the transport signals its
      end by an empty read. */
  lemma {:induction false} LengthCutShort(n: nat, net: Net, quota: nat)
    requires |net.rest| < n && quota >= |net.rest|
    ensures var p := Pump(Length(n), net, quota); p.sent == net.rest && (p.ok <==> net.end == EmptyRead)
    decreases |net.rest|
  {
    var r := ReadBody(Length(n), net, PUMP_READ);
    PumpUnfold(Length(n), net, quota);
    LengthShortStep(n, net);
    if net.rest != [] {
      LengthCutShort(r.body.remaining, r.net, quota - 1);
    }
  }

  lemma LengthShortStep(n: nat, net: Net)
    requires |net.rest| < n
    ensures var r := ReadBody(Length(n), net, PUMP_READ);
            if net.rest == [] then r.out == if net.end == EmptyRead then CM.Ok([]) else CM.Err(CM.Transport)
            else && r.out.Ok? && r.out.data != [] && r.out.data + r.net.rest == net.rest
                 && r.body == Length(n - |r.out.data|) && r.net.end == net.end
  {
  }

  lemma {:induction false} BrokenFrom(net: Net, quota: nat, r: BodyRead)
    requires net.end == Broken && r == ReadBody(UntilClose, net, PUMP_READ)
    ensures !PumpOn(r, quota).ok
    decreases quota
  {
    if r.out.Ok? && quota > 0 {
      BrokenFrom(r.net, quota - 1, ReadBody(UntilClose, r.net, PUMP_READ));
      PumpUnfold(UntilClose, r.net, quota - 1);
    }
  }

  /** A connection that breaks before it closes makes the transfer of an until-close body fail. */
  lemma BrokenIsError(net: Net, quota: nat)
    requires net.end == Broken
    ensures !Pump(UntilClose, net, quota).ok
  {
    BrokenFrom(net, quota, ReadBody(UntilClose, net, PUMP_READ));
    PumpUnfold(UntilClose, net, quota);
  }

  /** Nothing more is due from the source. */
  predicate Complete(b: Body) {
    match b
    case NoBody => true
    case Buffer(data) => data == []
    case Length(n) => n == 0
    case Chunks(d) => d.finished
    case UntilClose => true
  }

  lemma EndIsComplete(b: Body, net: Net, cap: nat)
    requires cap > 0 && net.end != EmptyRead
    ensures var r := ReadBody(b, net, cap);
            r.net.end == net.end && (r.out == CM.Ok([]) ==> Complete(r.body))
  {
    match b
    case Chunks(d) =>
      CM.ReadKeepsEnd(d, net, cap);
      CP.FalseEndIff(d, net, cap);
    case _ =>
  }

  /** Where the end of the stream is an error, as on the TCP connections this codec runs on, a
      body that is cut short is never reported as complete. */
  lemma {:induction false} SuccessIsComplete(b: Body, net: Net, quota: nat)
    requires net.end != EmptyRead
    ensures var p := Pump(b, net, quota); p.ok ==> Complete(p.body)
    decreases |net.rest| + Left(b)
  {
    var r := ReadBody(b, net, PUMP_READ);
    EndIsComplete(b, net, PUMP_READ);
    PumpUnfold(b, net, quota);
    if r.out.Ok? && r.out.data != [] && quota > 0 {
      ReadProgress(b, net, PUMP_READ);
      SuccessIsComplete(r.body, r.net, quota - 1);
    }
  }

  // ---- requests ---------------------------------------------------------------

  predicate Announces(length: Option<nat>, body: Bytes) {
    length == Some(|body|) || (length == None && body == [])
  }

  /** What of a sized body reaches the pump when `prefix` was read along with the head. */
  function Kept(body: Bytes, prefix: Bytes): Bytes {
    if |prefix| < |body| then body[|prefix|..] else body
  }

  /** Where the stream is left. */
  function Beyond(body: Bytes, prefix: Bytes, next: Bytes): Bytes
    requires |prefix| <= |body| + |next|
  {
    if |prefix| <= |body| then next else next[|prefix| - |body|..]
  }

  lemma LengthBodyDue(body: Bytes, prefix: Bytes, net: Net, next: Bytes)
    requires prefix + net.rest == body + next
    ensures |prefix| <= |body| + |next|
    ensures Due(LengthBody(|body|, prefix), net, Kept(body, prefix), Beyond(body, prefix, next))
  {
    var p, b, rest := |prefix|, |body|, net.rest;
    assert |prefix + rest| == p + |rest|;
    assert rest == (prefix + rest)[p..];
    if p >= b {
      assert prefix[..b] == (prefix + rest)[..b] == body;
      assert rest == (body + next)[p..] == next[p - b..];
    } else {
      assert (body + next)[p..] == body[p..] + next;
    }
  }

  lemma RequestBodyDue(length: Option<nat>, h: Head, body: Bytes, prefix: Bytes, net: Net, next: Bytes)
    requires h.contentLength == length && Announces(length, body) && prefix + net.rest == body + next
    ensures |prefix| <= |body| + |next|
    ensures Due(RequestBody(h, prefix), net, Kept(body, prefix), Beyond(body, prefix, next))
  {
    LengthBodyDue(body, prefix, net, next);
    if length == None {
      assert next == prefix + net.rest;
    }
  }

  /** A printed request followed by anything, however it is cut into reads, is read back whole, and
      every byte that follows it is either with the head or still on the stream. */
  lemma ReadsRequest(h: Head, tail: Bytes, net: Net)
    requires PrintableHead(h) && net.rest == Print(h) + tail
    ensures var f := ReadBlock(net, []); var m := ReadRequest(net);
            && f.Framed? && f.prefix + f.net.rest == tail
            && m == Request(Received(h), RequestBody(Received(h), f.prefix),
                            KeepAlive(Received(h).headers, Received(h).version), f.net)
  {
    EndOfPrintedHead(h, tail);
    BlockOf(net, Print(h), tail);
    ParsePrint(h);
  }

  /** A request with its body: what is forwarded and where the stream is left. */
  lemma ForwardsRequest(h: Head, body: Bytes, next: Bytes, net: Net, quota: nat)
    requires PrintableHead(h) && Announces(Received(h).contentLength, body)
    requires net.rest == Print(h) + (body + next)
    ensures ReadBlock(net, []).Framed? && ReadRequest(net).Request? && |ReadBlock(net, []).prefix| <= |body| + |next|
    ensures var prefix := ReadBlock(net, []).prefix; var m := ReadRequest(net); var p := Pump(m.body, m.net, quota);
            && m.head == Received(h)
            && (quota >= |body| ==> p.ok)
            && (p.ok ==> p.sent == Kept(body, prefix) && p.net.rest == Beyond(body, prefix, next))
  {
    ReadsRequest(h, body + next, net);
    var f, m := ReadBlock(net, []), ReadRequest(net);
    RequestBodyDue(m.head.contentLength, m.head, body, f.prefix, f.net, next);
    PumpDue(m.body, m.net, quota, Kept(body, f.prefix), Beyond(body, f.prefix, next));
  }

  /** The body is forwarded whole and the next message left whole exactly when the read that
      completed the head took none of the body, or all of it and nothing more. */
  lemma RequestWholeIff(h: Head, body: Bytes, next: Bytes, net: Net, quota: nat)
    requires PrintableHead(h) && Announces(Received(h).contentLength, body)
    requires net.rest == Print(h) + (body + next) && quota >= |body|
    ensures ReadBlock(net, []).Framed? && ReadRequest(net).Request?
    ensures var prefix := ReadBlock(net, []).prefix; var m := ReadRequest(net); var p := Pump(m.body, m.net, quota);
            (p.sent == body && p.net.rest == next) <==> (prefix == [] || |prefix| == |body|)
  {
    ForwardsRequest(h, body, next, net, quota);
    KeptIff(body, ReadBlock(net, []).prefix, next);
  }

  lemma KeptIff(body: Bytes, prefix: Bytes, next: Bytes)
    requires |prefix| <= |body| + |next|
    ensures (Kept(body, prefix) == body && Beyond(body, prefix, next) == next) <==> (prefix == [] || |prefix| == |body|)
  {
    if prefix == [] && body != [] { assert body[0..] == body; }
  }

  // ---- a connection -----------------------------------------------------------

  datatype Sent = Sent(head: Head, body: Bytes)

  predicate Sendable(s: Sent) {
    PrintableHead(s.head) && Announces(Received(s.head).contentLength, s.body)
  }

  /** Requests one after another on one connection. */
  function Wire(ms: seq<Sent>): Bytes {
    if ms == [] then [] else Print(ms[0].head) + (ms[0].body + Wire(ms[1..]))
  }

  datatype Step = Gone(net: Net) | Step(got: Sent, ok: bool, net: Net)

  /** Reads one request and forwards its body. */
  function ServeOne(net: Net, quota: nat): Step {
    var m := ReadRequest(net);
    if m.NoRequest? then Gone(m.net)
    else
      var p := Pump(m.body, m.net, quota);
      Step(Sent(m.head, p.sent), p.ok, p.net)
  }

  /** No read that completes a head takes part of its body, or anything after it. */
  predicate AlignedAt(net: Net, body: Bytes) {
    var f := ReadBlock(net, []);
    f.Framed? && (f.prefix == [] || |f.prefix| == |body|)
  }

  /** One connection serving `|ms|` requests, one after another. */
  ghost predicate Serving(nets: seq<Net>, ms: seq<Sent>, quota: nat) {
    && |nets| == |ms| + 1
    && forall i :: 0 <= i < |ms| ==>
         && Sendable(ms[i]) && |ms[i].body| <= quota
         && AlignedAt(nets[i], ms[i].body) && nets[i + 1] == ServeOne(nets[i], quota).net
  }

  lemma ServesOne(h: Head, body: Bytes, next: Bytes, net: Net, quota: nat)
    requires Sendable(Sent(h, body)) && |body| <= quota && net.rest == Print(h) + (body + next)
    requires AlignedAt(net, body)
    ensures var s := ServeOne(net, quota); s.Step? && s.ok && s.got == Sent(Received(h), body) && s.net.rest == next
  {
    ForwardsRequest(h, body, next, net, quota);
    KeptIff(body, ReadBlock(net, []).prefix, next);
  }

  lemma Regroup(a: Bytes, b: Bytes, c: Bytes, d: Bytes)
    ensures a + (b + c) + d == a + (b + (c + d))
  {
  }

  lemma WireUnfold(ms: seq<Sent>, k: nat, tail: Bytes)
    requires k < |ms|
    ensures Wire(ms[k..]) + tail == Print(ms[k].head) + (ms[k].body + (Wire(ms[k + 1..]) + tail))
  {
    assert ms[k..][1..] == ms[k + 1..];
    Regroup(Print(ms[k].head), ms[k].body, Wire(ms[k + 1..]), tail);
  }

  /** Between requests the stream is exactly at the next one. */
  lemma {:induction false} StreamAt(nets: seq<Net>, ms: seq<Sent>, tail: Bytes, quota: nat, k: nat)
    requires Serving(nets, ms, quota) && nets[0].rest == Wire(ms) + tail && k <= |ms|
    ensures nets[k].rest == Wire(ms[k..]) + tail
  {
    if k == 0 {
      assert ms[0..] == ms;
    } else {
      StreamAt(nets, ms, tail, quota, k - 1);
      WireUnfold(ms, k - 1, tail);
      ServesOne(ms[k - 1].head, ms[k - 1].body, Wire(ms[k..]) + tail, nets[k - 1], quota);
    }
  }

  /** On an aligned connection every request is read and forwarded as sent, in order. */
  lemma ServesEach(nets: seq<Net>, ms: seq<Sent>, tail: Bytes, quota: nat, i: nat)
    requires Serving(nets, ms, quota) && nets[0].rest == Wire(ms) + tail && i < |ms|
    ensures var s := ServeOne(nets[i], quota); s.Step? && s.ok && s.got == Sent(Received(ms[i].head), ms[i].body)
  {
    StreamAt(nets, ms, tail, quota, i);
    WireUnfold(ms, i, tail);
    ServesOne(ms[i].head, ms[i].body, Wire(ms[i + 1..]) + tail, nets[i], quota);
  }

  // ---- responses --------------------------------------------------------------

  /** How a response is delimited (section 6.3 of RFC 9112). */
  datatype Framing = Nothing | Sized(body: Bytes) | Encoded(m: CP.Message) | Closing(body: Bytes)

  function WireOf(f: Framing): Bytes {
    match f
    case Nothing => []
    case Sized(body) => body
    case Encoded(m) => CP.Encode(m)
    case Closing(body) => body
  }

  function ContentOf(f: Framing): Bytes {
    match f
    case Nothing => []
    case Sized(body) => body
    case Encoded(m) => CP.Payload(m.chunks)
    case Closing(body) => body
  }

  predicate FramedAs(r: Response, method_: Bytes, f: Framing) {
    if method_ == HEAD_METHOD || Bodiless(r.status) then f.Nothing?
    else if Mentions(r.headers, TRANSFER_ENCODING, CHUNKED) then f.Encoded? && CP.WellFormed(f.m)
    else if r.contentLength.Some? then f.Sized? && r.contentLength.value == |f.body|
    else f.Closing?
  }

  /** The statuses without a body, and the texts that say how one is delimited. */
  lemma BodyTexts(status: nat)
    ensures Bodiless(status) <==> 100 <= status < 200 || status == 204 || status == 304
    ensures CHUNKED == Ascii("chunked") && HEAD_METHOD == Ascii("HEAD")
  {
  }

  lemma ReadsResponse(r: Response, tail: Bytes, net: Net)
    requires PrintableResponse(r) && net.rest == PrintResponse(r) + tail
    ensures ReadBlock(net, []).Framed?
    ensures var f, m := ReadBlock(net, []), ReadResponse(net);
            var b := ResponseBody(ReceivedResponse(r), f.prefix);
            && f.prefix + f.net.rest == tail
            && m == Replied(ReceivedResponse(r), b,
                            !b.UntilClose? && KeepAlive(ReceivedResponse(r).headers, ReceivedResponse(r).version),
                            f.net)
  {
    EndOfPrintedResponse(r, tail);
    BlockOf(net, PrintResponse(r), tail);
    ParsePrintResponse(r);
  }

  /** What of the content reaches the client when `prefix` was read along with the head. */
  function KeptOf(f: Framing, prefix: Bytes): Bytes {
    if f.Closing? && |prefix| <= |f.body| then f.body[|prefix|..] else Kept(ContentOf(f), prefix)
  }

  lemma ResponseBodyDue(r: Response, method_: Bytes, f: Framing, prefix: Bytes, net: Net)
    requires FramedAs(r, method_, f) && prefix + net.rest == WireOf(f) && (f.Encoded? ==> prefix == [])
    requires f.Closing? ==> net.end != Broken
    ensures Due(ForwardedBody(method_, ResponseBody(r, prefix)), net, KeptOf(f, prefix), [])
  {
    match f
    case Nothing => assert |prefix + net.rest| == 0;
    case Sized(body) =>
      assert body + [] == body;
      LengthBodyDue(body, prefix, net, []);
    case Encoded(m) =>
      EncodedDue(m, net);
      assert prefix + net.rest == net.rest;
    case Closing(body) => assert body[|prefix|..] == net.rest;
  }

  lemma EncodedDue(m: CP.Message, net: Net)
    requires CP.WellFormed(m) && net.rest == CP.Encode(m)
    ensures Due(Chunks(CM.Decoder(0, false)), net, Kept(CP.Payload(m.chunks), []), [])
  {
    var rest := net.rest;
    assert CP.Frame([]) + (rest + []) == rest;
    assert CP.Owes(CM.Decoder(0, false), rest, [], m, []);
    assert Kept(CP.Payload(m.chunks), []) == [] + CP.Payload(m.chunks);
  }

  /** For a backend that sends one response per request: once a response has been forwarded without
      error, nothing of it is left on the backend stream, and a response delimited by the close of
      the connection never leaves the connection marked for reuse. */
  lemma OneWholeResponse(r: Response, method_: Bytes, f: Framing, net: Net, quota: nat)
    requires PrintableResponse(r) && FramedAs(ReceivedResponse(r), method_, f)
    requires net.rest == PrintResponse(r) + WireOf(f)
    requires f.Encoded? ==> ReadBlock(net, []).Framed? && ReadBlock(net, []).prefix == []
    ensures ReadBlock(net, []).Framed? && ReadResponse(net).Replied?
    ensures var prefix := ReadBlock(net, []).prefix; var m := ReadResponse(net);
            var p := Pump(ForwardedBody(method_, m.body), m.net, quota);
            && m.head == ReceivedResponse(r)
            && (f.Closing? ==> !m.keepAlive)
            && (quota >= |ContentOf(f)| && (f.Closing? ==> net.end != Broken) ==> p.ok)
            && (p.ok ==> p.net.rest == [] && p.sent == KeptOf(f, prefix))
  {
    ReadsResponse(r, WireOf(f), net);
    var b, m := ReadBlock(net, []), ReadResponse(net);
    if f.Closing? && net.end == Broken {
      BrokenIsError(m.net, quota);
    } else {
      ResponseBodyDue(m.head, method_, f, b.prefix, b.net);
      PumpDue(ForwardedBody(method_, m.body), m.net, quota, KeptOf(f, b.prefix), []);
    }
  }
}
