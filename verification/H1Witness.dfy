/** Inputs on which the codec falls short of what one would expect. */
module H1Witness {
  import opened Common
  import opened Network
  import opened Headers
  import opened H1Head
  import opened H1HeadProofs
  import opened H1Body
  import opened H1BodyProofs
  import CM = ChunkedModel
  import CP = ChunkedProofs

  lemma FirstRead(net: Net, raw: Bytes, tail: Bytes, n: nat)
    requires net.rest == raw + tail && raw != [] && n <= |tail| && |raw| + n <= HEAD_READ
    requires net.cut(net.tick) == |raw| + n
    ensures Pull(net, HEAD_READ) == Got(raw + tail[..n]) && After(net, HEAD_READ).rest == tail[n..]
  {
    assert Size(net, HEAD_READ) == |raw| + n;
    assert (raw + tail)[..|raw| + n] == raw + tail[..n];
    assert (raw + tail)[|raw| + n..] == tail[n..];
  }

  /** A first read that takes the head and `n` bytes more. */
  lemma OverRead(net: Net, raw: Bytes, tail: Bytes, n: nat)
    requires net.rest == raw + tail && |raw| >= 4 && n <= |tail| && |raw| + n <= HEAD_READ
    requires Find(raw + tail[..n], END_OF_HEAD) == Some(|raw| - 4) && net.cut(net.tick) == |raw| + n
    ensures var f := ReadBlock(net, []);
            f.Framed? && f.raw == raw && f.prefix == tail[..n] && f.net == After(net, HEAD_READ)
    ensures After(net, HEAD_READ).rest == tail[n..]
  {
    FirstRead(net, raw, tail, n);
    var first := raw + tail[..n];
    assert [] + first == first;
    assert first[..|raw|] == raw && first[|raw|..] == tail[..n];
  }

  // ---- requests ---------------------------------------------------------------

  const PUT: Bytes := [80, 85, 84]

  /** PUT / with two bytes of body. */
  const UPLOAD := Head(PUT, [SLASH], HTTP11, HTTP, [], false, [Field(CONTENT_LENGTH, [50])], None)

  lemma VersionToken()
    ensures WireVersion(HTTP11) == HTTP11 && Token(HTTP11)
  {
    assert HTTP1 == HTTP11[..7];
    assert forall i :: 0 <= i < |HTTP11| ==> HTTP11[i] > 32;
  }

  lemma OneFieldBlock(line: Bytes, f: Field)
    ensures FieldLines([f]) == [FieldLine(f)]
    ensures |Block([line] + FieldLines([f]))| == |line| + |FieldLine(f)| + 6
  {
    var lines := [line] + [FieldLine(f)];
    assert FieldLines([f]) == [FieldLine(f)];
    assert lines[1..] == [FieldLine(f)] && [FieldLine(f)][1..] == [];
    assert Block([FieldLine(f)]) == FieldLine(f) + CRLF + Block([]);
  }

  lemma UploadPrintable()
    ensures PrintableHead(UPLOAD) && |Print(UPLOAD)| < 100
  {
    VersionToken();
    assert Printable(UPLOAD.headers[0]);
    assert UPLOAD.headers == [UPLOAD.headers[0]];
    OneFieldBlock(PrintLine(UPLOAD), UPLOAD.headers[0]);
  }

  lemma UploadLength()
    ensures Received(UPLOAD).contentLength == Some(2)
  {
    SeenIff([50]);
    var hs := SeenFields(UPLOAD.headers);
    assert hs == [Field(CONTENT_LENGTH, [50])];
    assert [50][1..] == [] && Digits([50]) == [50];
    assert [50][..0] == [] && DecimalValue([50]) == 2;
  }

  /** The read that completes the head takes the first byte of the body, and that byte is lost. */
  lemma PrefixIsLost() returns (body: Bytes, net: Net)
    ensures PrintableHead(UPLOAD) && Announces(Received(UPLOAD).contentLength, body) && net.rest == Print(UPLOAD) + body
    ensures ReadRequest(net).Request? && Pump(ReadRequest(net).body, ReadRequest(net).net, 2).sent != body
  {
    UploadPrintable();
    UploadLength();
    body := [1, 2];
    var raw := Print(UPLOAD);
    net := Net(raw + body, 0, (t: nat) => |raw| + 1, EofError);
    EndOfPrintedHead(UPLOAD, body[..1]);
    OverRead(net, raw, body, 1);
    assert body + [] == body;
    ForwardsRequest(UPLOAD, body, [], net, 2);
  }

  /** A path with a colon and two slashes in it, and an empty value. */
  const ODD := UPLOAD.(path := [47, 97, 58, 47, 47, 98], headers := [Field([120], [])])

  lemma OddTarget()
    ensures ParseTarget(ODD.path).path != ODD.path && Seen([]) != []
  {
    var path := ODD.path;
    assert path[2] == 58 && path[3] == 47 && path[4] == 47;
    assert path[2..2 + 3] == [58, 47, 47];
    assert path[0..3][0] == 47 && path[1..4][0] == 97 && SCHEME_MARK[0] == 58;
    FirstIs(path, SCHEME_MARK, 2);
    TargetIff(path);
    SeenIff([]);
  }

  lemma OddPrintable()
    ensures PrintableHead(ODD)
  {
    VersionToken();
    assert Printable(ODD.headers[0]);
  }

  /** Printed and parsed, the path is taken apart and the value comes back as a blank. */
  lemma OddHeadChanges()
    ensures PrintableHead(ODD) && Parse(Print(ODD)).Some?
    ensures Parse(Print(ODD)).value.path != ODD.path && Parse(Print(ODD)).value.headers != ODD.headers
  {
    OddPrintable();
    OddTarget();
    ParsePrint(ODD);
    var hs := ODD.headers;
    assert SeenFields(hs)[0] == Field(hs[0].name, Seen(hs[0].value)) && hs[0].value == [];
  }

  // ---- responses --------------------------------------------------------------

  const OK_REASON: Bytes := [79, 75]
  const CHUNKED_OK := Response(200, OK_REASON, HTTP11, [Field(TRANSFER_ENCODING, CHUNKED)], None)

  lemma EncodingPrintable()
    ensures Printable(Field(TRANSFER_ENCODING, CHUNKED))
  {
    assert forall i :: 0 <= i < |TRANSFER_ENCODING| ==> TRANSFER_ENCODING[i] > 58 || TRANSFER_ENCODING[i] == 45;
    assert forall i :: 0 <= i < |CHUNKED| ==> CHUNKED[i] > 58;
  }

  lemma ChunkedOkPrintable()
    ensures PrintableResponse(CHUNKED_OK)
  {
    EncodingPrintable();
    VersionToken();
    assert CHUNKED_OK.headers == [Field(TRANSFER_ENCODING, CHUNKED)];
  }

  lemma ChunkedOkLength()
    ensures |PrintResponse(CHUNKED_OK)| < 100
  {
    assert CHUNKED_OK.headers == [CHUNKED_OK.headers[0]];
    assert |ToDecimal(2)| == 1 && |ToDecimal(20)| == 2 && |ToDecimal(200)| == 3;
    OneFieldBlock(PrintStatusLine(CHUNKED_OK), CHUNKED_OK.headers[0]);
  }

  /** The response is chunked and keeps its connection. */
  lemma ChunkedOkReceived()
    ensures var r := ReceivedResponse(CHUNKED_OK);
            Mentions(r.headers, TRANSFER_ENCODING, CHUNKED) && KeepAlive(r.headers, r.version) && !Bodiless(r.status)
  {
    SeenIff(CHUNKED);
    var hs := SeenFields(CHUNKED_OK.headers);
    assert hs == [Field(TRANSFER_ENCODING, CHUNKED)] && hs[1..] == [];
    assert OccursAt(CHUNKED, CHUNKED, 0);
    FirstIs(CHUNKED, CHUNKED, 0);
    assert |Lower(TRANSFER_ENCODING)| == 17 && |Lower(CONNECTION)| == 10;
    assert Get(hs, CONNECTION) == None;
    assert HTTP1 <= HTTP11 && HTTP10[7] != HTTP11[7];
  }

  /** One chunk whose data reads like the end of a body. */
  const TRAP := CP.Message([CP.Chunk([53], [], [48, 13, 10, 13, 10])], [48], [], [])
  const NOTHING_LEFT := CP.Message([], [48], [], [])
  const BEHIND: Bytes := [13, 10, 48, 13, 10, 13, 10]

  lemma TrapBytes()
    ensures CP.WellFormed(TRAP) && CP.WellFormed(NOTHING_LEFT)
    ensures CP.Encode(TRAP) == [53, 13, 10] + (CP.Encode(NOTHING_LEFT) + BEHIND)
  {
    var c := TRAP.chunks[0];
    assert [53][..0] == [] && CM.HexValue([53]) == 5;
    assert [48][..0] == [] && CM.HexValue([48]) == 0;
    assert CP.SizeOk([53], 5) && CP.SizeOk([48], 0) && CP.ChunkOk(c);
    assert CP.Lines([]) == CRLF;
    assert CP.Encode(NOTHING_LEFT) == [48, 13, 10, 13, 10];
    assert TRAP.(chunks := TRAP.chunks[1..]) == NOTHING_LEFT;
    assert CP.Encode(TRAP) == [53] + [] + CRLF + ([48, 13, 10, 13, 10] + CRLF + CP.Encode(NOTHING_LEFT));
  }

  lemma TrapDue(net: Net)
    requires net.rest == CP.Encode(NOTHING_LEFT) + BEHIND
    ensures Due(Chunks(CM.Decoder(0, false)), net, [], BEHIND)
  {
    TrapBytes();
    assert CP.Frame([]) + net.rest == net.rest;
    assert CP.Owes(CM.Decoder(0, false), net.rest, [], NOTHING_LEFT, BEHIND);
    assert [] == [] + CP.Payload(NOTHING_LEFT.chunks);
  }

  /** The stream of a backend that answers with that response, cut so that the read which completes
      the head takes the size line of the chunk. */
  function TrapCut(t: nat): nat {
    |PrintResponse(CHUNKED_OK)| + 3
  }

  /** A well-formed chunked response, over-read: the transfer reports success, delivers nothing, keeps
      the connection, and leaves bytes of the response on it. */
  lemma OverReadChunked(net: Net, quota: nat)
    requires net.rest == PrintResponse(CHUNKED_OK) + CP.Encode(TRAP) && net.cut(net.tick) == TrapCut(net.tick)
    ensures ReadResponse(net).Replied?
    ensures var m := ReadResponse(net); var p := Pump(m.body, m.net, quota);
            && m.head.status == 200 && m.keepAlive && m.body.Chunks?
            && p.ok && p.sent == [] && p.net.rest == BEHIND
  {
    ChunkedOkPrintable();
    ChunkedOkLength();
    ChunkedOkReceived();
    TrapBytes();
    var raw, tail := PrintResponse(CHUNKED_OK), CP.Encode(TRAP);
    EndOfPrintedResponse(CHUNKED_OK, tail[..3]);
    OverRead(net, raw, tail, 3);
    ReadsResponse(CHUNKED_OK, tail, net);
    var m := ReadResponse(net);
    assert tail[3..] == CP.Encode(NOTHING_LEFT) + BEHIND;
    TrapDue(m.net);
    PumpDue(m.body, m.net, quota, [], BEHIND);
  }

  // ---- a sized response -------------------------------------------------------

  const SIZED_OK := Response(200, OK_REASON, HTTP11, [Field(CONTENT_LENGTH, [50])], None)

  lemma LengthPrintable()
    ensures Printable(Field(CONTENT_LENGTH, [50]))
  {
    assert forall i :: 0 <= i < |CONTENT_LENGTH| ==> CONTENT_LENGTH[i] > 58 || CONTENT_LENGTH[i] == 45;
  }

  lemma SizedOkPrintable()
    ensures PrintableResponse(SIZED_OK)
  {
    LengthPrintable();
    VersionToken();
    assert SIZED_OK.headers == [Field(CONTENT_LENGTH, [50])];
  }

  lemma SizedOkLength()
    ensures |PrintResponse(SIZED_OK)| < 100
  {
    assert SIZED_OK.headers == [SIZED_OK.headers[0]];
    assert |ToDecimal(2)| == 1 && |ToDecimal(20)| == 2 && |ToDecimal(200)| == 3;
    OneFieldBlock(PrintStatusLine(SIZED_OK), SIZED_OK.headers[0]);
  }

  lemma SizedOkReceived()
    ensures var r := ReceivedResponse(SIZED_OK);
            && !Mentions(r.headers, TRANSFER_ENCODING, CHUNKED) && KeepAlive(r.headers, r.version)
            && !Bodiless(r.status) && r.contentLength == Some(2)
  {
    UploadLength();
    SeenIff([50]);
    var hs := SeenFields(SIZED_OK.headers);
    assert hs == [Field(CONTENT_LENGTH, [50])] && hs[1..] == [] && hs == SeenFields(UPLOAD.headers);
    assert |Lower(TRANSFER_ENCODING)| == 17 && |Lower(CONNECTION)| == 10 && |Lower(CONTENT_LENGTH)| == 14;
    assert Get(hs, CONNECTION) == None && Get(hs, TRANSFER_ENCODING) == None;
    assert HTTP1 <= HTTP11 && HTTP10[7] != HTTP11[7];
  }

  /** The head in one read, then one byte at a time. */
  function SizedCut(t: nat): nat {
    if t == 0 then |PrintResponse(SIZED_OK)| else 1
  }

  lemma SizedRead(net: Net)
    requires net.rest == PrintResponse(SIZED_OK) + [1, 2] && net.tick == 0 && net.cut == SizedCut
    ensures ReadResponse(net).Replied?
    ensures var m := ReadResponse(net);
            && m.head.status == 200 && m.keepAlive && m.body == Length(2)
            && m.net.rest == [1, 2] && m.net.tick == 1 && m.net.cut == SizedCut
  {
    SizedOkPrintable();
    SizedOkLength();
    SizedOkReceived();
    var raw, tail := PrintResponse(SIZED_OK), [1, 2];
    EndOfPrintedResponse(SIZED_OK, tail[..0]);
    OverRead(net, raw, tail, 0);
    assert tail[..0] == [] && tail[0..] == tail;
    ReadsResponse(SIZED_OK, tail, net);
  }

  /** A write that fails behind the first byte leaves the second on the stream. */
  lemma SizedStops(net: Net)
    requires net.rest == [1, 2] && net.tick == 1 && net.cut == SizedCut
    ensures var p := Pump(Length(2), net, 0); !p.ok && p.net.rest == [2]
  {
    PumpUnfold(Length(2), net, 0);
    assert Size(net, 2) == 1;
    assert net.rest[..1] == [1] && net.rest[1..] == [2];
  }

  /** Where the end of the stream is an empty read a missing body counts as complete. */
  lemma EmptyReadEndsBody(net: Net)
    requires net.rest == [] && net.end == EmptyRead
    ensures Pump(Length(1), net, 0).ok && !Complete(Pump(Length(1), net, 0).body)
  {
    LengthCutShort(1, net, 0);
    PumpUnfold(Length(1), net, 0);
  }
}
