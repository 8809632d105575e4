/** A response on its way through the relay: what of it the client is sent, and exactly when the client
    reads back the status and the content that the backend sent and is left at the next message. */
module H1EndToEnd {
  import opened Common
  import opened Network
  import opened Headers
  import opened H1Head
  import opened H1HeadProofs
  import opened H1Body
  import opened H1BodyProofs
  import opened H1Leftover
  import opened H1Ends
  import opened ChunkedStop
  import CM = ChunkedModel
  import CP = ChunkedProofs

  // ---- from the backend -------------------------------------------------------

  /** The content gets through when `prefix` was read along with the head. */
  predicate Whole(f: Framing, prefix: Bytes, end: Ending)
    requires prefix <= WireOf(f)
  {
    match f
    case Nothing => true
    case Sized(body) => prefix == [] || |prefix| == |body|
    case Encoded(m) =>
      var e := FromLine(WireOf(f)[|prefix|..], end);
      e.ok && e.content == ContentOf(f)
    case Closing(_) => prefix == [] && end != Broken
  }

  lemma Behind(w: Bytes, prefix: Bytes, rest: Bytes)
    requires prefix + rest == w
    ensures prefix <= w && rest == w[|prefix|..]
  {
  }

  lemma SizedEnds(body: Bytes, prefix: Bytes, rest: Bytes, end: Ending)
    requires prefix + rest == body
    ensures var e := EndOf(LengthBody(|body|, prefix), rest, end);
            && e.ok && e.left == [] && e.content == Kept(body, prefix)
            && (e.content == body <==> prefix == [] || |prefix| == |body|)
  {
    Behind(body, prefix, rest);
    assert |prefix| + |rest| == |body|;
    if |prefix| >= |body| { assert rest == [] && prefix[..|body|] == body; }
  }

  /** What the source that the codec makes of a response will deliver. */
  lemma WholeIff(r: Response, method_: Bytes, f: Framing, prefix: Bytes, rest: Bytes, end: Ending)
    requires FramedAs(r, method_, f) && prefix + rest == WireOf(f)
    ensures prefix <= WireOf(f)
    ensures var e := EndOf(ForwardedBody(method_, ResponseBody(r, prefix)), rest, end);
            (e.ok && e.content == ContentOf(f)) <==> Whole(f, prefix, end)
  {
    Behind(WireOf(f), prefix, rest);
    if f.Sized? { SizedEnds(f.body, prefix, rest, end); }
  }

  /** The body the codec makes of a response takes at most a write for each byte of it. */
  lemma WireBound(r: Response, method_: Bytes, f: Framing, prefix: Bytes, net: Net)
    requires FramedAs(r, method_, f) && prefix + net.rest == WireOf(f)
    ensures Turns(ForwardedBody(method_, ResponseBody(r, prefix)), net) <= |WireOf(f)|
  {
    assert |prefix + net.rest| == |prefix| + |net.rest|;
    TurnsBound(ForwardedBody(method_, ResponseBody(r, prefix)), net);
  }

  /** The client is sent the whole content exactly when nothing of the response was read along with its
      head; or all of a sized body was; or the rest of a chunked one happens to decode to the same.
      A sized response is reported a success in every case. */
  lemma ResponseWholeIff(r: Response, method_: Bytes, f: Framing, net: Net, quota: nat)
    requires PrintableResponse(r) && FramedAs(ReceivedResponse(r), method_, f)
    requires net.rest == PrintResponse(r) + WireOf(f) && quota >= |WireOf(f)|
    ensures ReadBlock(net, []).Framed? && ReadResponse(net).Replied? && ReadBlock(net, []).prefix <= WireOf(f)
    ensures var prefix, m := ReadBlock(net, []).prefix, ReadResponse(net);
            var p := Pump(ForwardedBody(method_, m.body), m.net, quota);
            && ((p.ok && p.sent == ContentOf(f)) <==> Whole(f, prefix, net.end))
            && (f.Sized? ==> p.ok && p.sent == Kept(f.body, prefix))
  {
    ReadsResponse(r, WireOf(f), net);
    var b, m := ReadBlock(net, []), ReadResponse(net);
    WholeIff(m.head, method_, f, b.prefix, b.net.rest, net.end);
    WireBound(m.head, method_, f, b.prefix, b.net);
    PumpEnds(ForwardedBody(method_, m.body), m.net, quota);
    if f.Sized? { SizedEnds(f.body, b.prefix, b.net.rest, net.end); }
  }

  // ---- a head that is printed again -------------------------------------------

  predicate AllBlank(v: Bytes) {
    forall i :: 0 <= i < |v| ==> IsBlank(v[i])
  }

  lemma {:induction false} DropsBlanks(v: Bytes)
    ensures DropBlanks(v) == [] <==> AllBlank(v)
    ensures DropBlanks(v) != [] ==> !IsBlank(DropBlanks(v)[0])
  {
    if v != [] && IsBlank(v[0]) {
      DropsBlanks(v[1..]);
      if AllBlank(v[1..]) {
        assert forall i :: 0 < i < |v| ==> v[i] == v[1..][i - 1];
      }
    }
  }

  /** A value that has been seen once looks the same the next time, or is nothing but blanks. */
  lemma SeenAgain(v: Bytes)
    ensures Seen(Seen(v)) == Seen(v) || (AllBlank(Seen(v)) && AllBlank(Seen(Seen(v))))
  {
    var w := [SP] + v;
    assert w[1..] == v;
    DropsBlanks(w);
    if DropBlanks(w) == [] {
      var w' := [SP] + w;
      DropsBlanks(w');
    } else {
      SeenIff(Seen(v));
    }
  }

  lemma BlankMeansNothing(v: Bytes)
    requires AllBlank(v)
    ensures Decimal(v) == 0 && Find(v, CHUNKED).None?
  {
    forall k: nat
      ensures !OccursAt(v, CHUNKED, k)
    {
      if k + |CHUNKED| <= |v| { assert v[k..k + |CHUNKED|][0] == v[k] && IsBlank(v[k]); }
    }
  }

  lemma {:induction false} GetSeen(fs: seq<Field>, name: Bytes)
    ensures Get(SeenFields(fs), name) == match Get(fs, name) case None => None case Some(v) => Some(Seen(v))
  {
    if fs != [] {
      SeenUnfold(fs);
      GetSeen(fs[1..], name);
      assert SeenFields(fs)[1..] == SeenFields(fs[1..]);
    }
  }

  lemma SameMeaning(fs: seq<Field>)
    ensures var hs := SeenFields(fs); var hs' := SeenFields(hs);
            && LengthOf(hs') == LengthOf(hs)
            && (Mentions(hs', TRANSFER_ENCODING, CHUNKED) <==> Mentions(hs, TRANSFER_ENCODING, CHUNKED))
  {
    MeansAgain(fs, CONTENT_LENGTH);
    MeansAgain(fs, TRANSFER_ENCODING);
  }

  lemma MeansAgain(fs: seq<Field>, name: Bytes)
    ensures var a, b := Get(SeenFields(SeenFields(fs)), name), Get(SeenFields(fs), name);
            && a.Some? == b.Some?
            && (b.Some? ==> && Decimal(a.value) == Decimal(b.value)
                            && Find(a.value, CHUNKED).Some? == Find(b.value, CHUNKED).Some?)
  {
    GetSeen(fs, name);
    GetSeen(SeenFields(fs), name);
    if Get(fs, name).Some? {
      var v := Get(fs, name).value;
      SeenAgain(v);
      if Seen(Seen(v)) != Seen(v) {
        BlankMeansNothing(Seen(v));
        BlankMeansNothing(Seen(Seen(v)));
      }
    }
  }

  lemma SeenPrintable(v: Bytes)
    requires LF !in v
    ensures LF !in Seen(v)
  {
    DropsSuffix([SP] + v);
  }

  lemma {:induction false} DropsSuffix(v: Bytes)
    ensures forall b :: b in DropBlanks(v) ==> b in v
  {
    if v != [] && IsBlank(v[0]) { DropsSuffix(v[1..]); }
  }

  /** The head as the relay writes it: with the version of the client. */
  function Rewritten(r: Response, version: Bytes): Response {
    ReceivedResponse(r).(version := version)
  }

  lemma RewrittenPrintable(r: Response, version: Bytes)
    requires PrintableResponse(r) && Token(WireVersion(version))
    ensures PrintableResponse(Rewritten(r, version))
  {
    SeenPrintable(r.reason);
    var hs := SeenFields(r.headers);
    forall i | 0 <= i < |hs|
      ensures Printable(hs[i])
    {
      SeenPrintable(r.headers[i].value);
    }
  }

  /** The client takes the response for one of the same kind. */
  lemma SameFraming(r: Response, version: Bytes, method_: Bytes, f: Framing)
    requires FramedAs(ReceivedResponse(r), method_, f)
    ensures FramedAs(ReceivedResponse(Rewritten(r, version)), method_, f)
  {
    SameMeaning(r.headers);
  }

  // ---- at the client ----------------------------------------------------------

  lemma {:induction false} TrailersConsume(q: Bytes)
    ensures var e := FromTrailers(q); e.content == [] && (e.ok ==> |e.left| < |q|)
    decreases |q|
  {
    var k := LfAt(q);
    if k < |q| && CP.Strip(q[..k]) != [] { TrailersConsume(q[k + 1..]); }
  }

  lemma {:induction false} DataConsumes(n: nat, q: Bytes, end: Ending)
    requires n > 0
    ensures var e := FromData(n, q, end); e.ok ==> |e.content| + |e.left| <= |q|
    decreases |q|, 0
  {
    if |q| >= n + 2 { LineConsumes(q[n + 2..], end); }
  }

  /** An encoding is longer than what it encodes. */
  lemma {:induction false} LineConsumes(q: Bytes, end: Ending)
    ensures var e := FromLine(q, end); e.ok ==> |e.content| + |e.left| < |q|
    decreases |q|, 1
  {
    var k := LfAt(q);
    if k < |q| && CM.ChunkSize(CP.Strip(q[..k])).Some? {
      var n := CM.ChunkSize(CP.Strip(q[..k])).value;
      if n == 0 { TrailersConsume(q[k + 1..]); } else { DataConsumes(n, q[k + 1..], end); }
    }
  }

  /** The client, to which `sent` came as the body, followed by `next`, reads the content back and is left at
      `next`.  A chunked body that came as its own content never passes for an encoding of it. */
  predicate ReadsBack(f: Framing, prefix: Bytes, sent: Bytes, next: Bytes, end: Ending) {
    match f
    case Nothing => true
    case Sized(body) => prefix == [] || |prefix| == |body|
    case Encoded(m) => prefix != [] && FromLine(sent + next, end) == Ended(next, true, ContentOf(f))
    case Closing(_) => prefix == [] && next == [] && end != Broken
  }

  lemma SizedBack(body: Bytes, sent: Bytes, next: Bytes, end: Ending)
    requires |sent| <= |body|
    ensures var e := EndOf(LengthBody(|body|, []), sent + next, end);
            (e.ok && e.content == body && e.left == next) <==> sent == body
  {
    var q := sent + next;
    if sent == body {
      assert q[|body|..] == next && q[..|body|] == body;
    } else if |sent| == |body| {
      assert q[..|body|] == sent;
    }
  }

  lemma ChunkedBack(sent: Bytes, next: Bytes, end: Ending)
    ensures FromLine(sent + next, end) != Ended(next, true, sent)
  {
    LineConsumes(sent + next, end);
  }

  lemma ClosingBack(body: Bytes, sent: Bytes, next: Bytes)
    ensures (sent + next == body && next == []) <==> (sent == body && next == [])
  {
    if next == [] { assert sent + next == sent; }
  }

  /** What was sent of the body for each kind of response. */
  predicate SentOf(f: Framing, prefix: Bytes, sent: Bytes)
    requires prefix <= WireOf(f)
  {
    match f
    case Nothing => sent == []
    case Sized(body) => sent == Kept(body, prefix)
    case Encoded(m) => prefix == [] ==> sent == ContentOf(f)
    case Closing(body) => sent == body[|prefix|..]
  }

  lemma BackIff(c: Response, method_: Bytes, f: Framing, prefix: Bytes, sent: Bytes, next: Bytes, end: Ending)
    requires FramedAs(c, method_, f) && prefix <= WireOf(f) && SentOf(f, prefix, sent)
    ensures var e := EndOf(ForwardedBody(method_, ResponseBody(c, [])), sent + next, end);
            (e.ok && e.content == ContentOf(f) && e.left == next) <==> ReadsBack(f, prefix, sent, next, end)
  {
    match f
    case Nothing => assert sent + next == next;
    case Sized(body) =>
      SizedBack(body, sent, next, end);
      assert Kept(body, prefix) == body <==> prefix == [] || |prefix| == |body|;
    case Encoded(m) => if prefix == [] { ChunkedBack(sent, next, end); }
    case Closing(body) =>
      ClosingBack(body, sent, next);
      assert body[|prefix|..] == body <==> prefix == [];
  }

  // ---- end to end -------------------------------------------------------------

  /** The transfer of the body of the response on a stream. */
  function Transfer(net: Net, method_: Bytes, quota: nat): Pumped
    requires ReadResponse(net).Replied?
  {
    Pump(ForwardedBody(method_, ReadResponse(net).body), ReadResponse(net).net, quota)
  }

  /** Reading the stream gives a response with this status and content, and leaves `next`. */
  predicate Gives(net: Net, method_: Bytes, quota: nat, status: nat, content: Bytes, next: Bytes) {
    && ReadResponse(net).Replied? && ReadResponse(net).head.status == status
    && var p := Transfer(net, method_, quota); p.ok && p.sent == content && p.net.rest == next
  }

  lemma {:induction false} PayloadShorter(m: CP.Message)
    ensures |CP.Payload(m.chunks)| <= |CP.Encode(m)|
    decreases |m.chunks|
  {
    if m.chunks != [] { PayloadShorter(m.(chunks := m.chunks[1..])); }
  }

  /** A body delimited by the close is passed on to its last byte, even if the connection broke there. */
  lemma {:induction false} CloseSends(net: Net, quota: nat, r: BodyRead)
    requires quota >= |net.rest| && r == ReadBody(UntilClose, net, PUMP_READ)
    ensures PumpOn(r, quota).sent == net.rest
    decreases |net.rest|
  {
    if net.rest != [] {
      var r' := ReadBody(UntilClose, r.net, PUMP_READ);
      CloseSends(r.net, quota - 1, r');
      PumpUnfold(UntilClose, r.net, quota - 1);
    }
  }

  lemma SentIs(r: Response, method_: Bytes, f: Framing, net: Net, quota: nat)
    requires PrintableResponse(r) && FramedAs(ReceivedResponse(r), method_, f)
    requires net.rest == PrintResponse(r) + WireOf(f) && quota >= |WireOf(f)|
    ensures ReadBlock(net, []).Framed? && ReadResponse(net).Replied? && ReadBlock(net, []).prefix <= WireOf(f)
    ensures ReadResponse(net).head == ReceivedResponse(r)
    ensures SentOf(f, ReadBlock(net, []).prefix, Transfer(net, method_, quota).sent)
  {
    ReadsResponse(r, WireOf(f), net);
    ResponseWholeIff(r, method_, f, net, quota);
    var b, m := ReadBlock(net, []), ReadResponse(net);
    match f
    case Nothing => PumpUnfold(NoBody, m.net, quota);
    case Sized(_) =>
    case Encoded(msg) =>
      PayloadShorter(msg);
      if b.prefix == [] { OneWholeResponse(r, method_, f, net, quota); }
    case Closing(body) =>
      Behind(body, b.prefix, b.net.rest);
      CloseSends(b.net, quota, ReadBody(UntilClose, b.net, PUMP_READ));
      PumpUnfold(UntilClose, b.net, quota);
  }

  /** A client that takes nothing of the body along with the head. */
  lemma ClientReads(h: Response, sent: Bytes, method_: Bytes, f: Framing, prefix: Bytes, next: Bytes,
                    net: Net, quota: nat)
    requires PrintableResponse(h) && FramedAs(ReceivedResponse(h), method_, f)
    requires prefix <= WireOf(f) && SentOf(f, prefix, sent)
    requires net.rest == PrintResponse(h) + (sent + next) && quota >= |sent + next|
    requires ReadBlock(net, []).Framed? && ReadBlock(net, []).prefix == []
    ensures Gives(net, method_, quota, h.status, ContentOf(f), next) <==> ReadsBack(f, prefix, sent, next, net.end)
  {
    ReadsResponse(h, sent + next, net);
    var b, m := ReadBlock(net, []), ReadResponse(net);
    assert b.prefix + b.net.rest == b.net.rest;
    var body := ForwardedBody(method_, m.body);
    TurnsBound(body, m.net);
    PumpEnds(body, m.net, quota);
    BackIff(m.head, method_, f, prefix, sent, next, net.end);
  }

  /** A response that the backend sends is read, passed on with the client's version in its head, and read
      by the client, in reads of any sizes on both sides.  The client gets its status and content and
      is left at what follows exactly when `ReadsBack` says so. */
  lemma EndToEndIff(r: Response, method_: Bytes, f: Framing, net: Net, quota: nat, version: Bytes,
                    next: Bytes, client: Net, clientQuota: nat)
    requires PrintableResponse(r) && FramedAs(ReceivedResponse(r), method_, f) && Token(WireVersion(version))
    requires net.rest == PrintResponse(r) + WireOf(f) && quota >= |WireOf(f)|
    requires ReadResponse(net).Replied? && clientQuota >= |Transfer(net, method_, quota).sent + next|
    requires client.rest == PrintResponse(ReadResponse(net).head.(version := version))
                            + (Transfer(net, method_, quota).sent + next)
    requires ReadBlock(client, []).Framed? && ReadBlock(client, []).prefix == []
    ensures ReadBlock(net, []).Framed?
    ensures Gives(client, method_, clientQuota, r.status, ContentOf(f), next)
       <==> ReadsBack(f, ReadBlock(net, []).prefix, Transfer(net, method_, quota).sent, next, client.end)
  {
    SentIs(r, method_, f, net, quota);
    RewrittenPrintable(r, version);
    SameFraming(r, version, method_, f);
    ClientReads(Rewritten(r, version), Transfer(net, method_, quota).sent, method_, f, ReadBlock(net, []).prefix,
                next, client, clientQuota);
  }
}
