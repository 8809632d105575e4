/** Responses that do not reach the client as the backend sent them. */
module H1EndWitness {
  import opened Common
  import opened Network
  import opened Headers
  import opened H1Head
  import opened H1HeadProofs
  import opened H1Body
  import opened H1BodyProofs
  import opened H1EndToEnd
  import opened H1Witness
  import CM = ChunkedModel
  import CP = ChunkedProofs

  // ---- a sized response -------------------------------------------------------

  /** The read that completes the head takes the first of two bytes of the body: the client is sent the
      second alone, under a head that announces two, and the transfer is a success. */
  lemma SizedCutShort() returns (net: Net)
    ensures PrintableResponse(SIZED_OK) && net.rest == PrintResponse(SIZED_OK) + [1, 2] && net.end == EofError
    ensures ReceivedResponse(SIZED_OK).contentLength == Some(2) && ReadResponse(net).Replied?
    ensures var m := ReadResponse(net); var p := Pump(m.body, m.net, 2); m.keepAlive && p.ok && p.sent == [2]
  {
    SizedOkPrintable();
    SizedOkLength();
    SizedOkReceived();
    var raw, body: Bytes := PrintResponse(SIZED_OK), [1, 2];
    net := Net(raw + body, 0, t => |raw| + 1, EofError);
    EndOfPrintedResponse(SIZED_OK, body[..1]);
    OverRead(net, raw, body, 1);
    assert body[..1] == [1] && body[1..] == [2];
    ReadsResponse(SIZED_OK, body, net);
    ResponseWholeIff(SIZED_OK, [], Sized(body), net, 2);
  }

  // ---- through the relay ------------------------------------------------------

  /** A stream on which the first read takes the head and nothing more. */
  function Neat(h: Response, tail: Bytes): Net {
    Net(PrintResponse(h) + tail, 0, t => |PrintResponse(h)|, EofError)
  }

  lemma NeatReads(h: Response, tail: Bytes)
    requires PrintableResponse(h) && |PrintResponse(h)| <= HEAD_READ
    ensures var f := ReadBlock(Neat(h, tail), []); f.Framed? && f.prefix == []
  {
    EndOfPrintedResponse(h, tail[..0]);
    OverRead(Neat(h, tail), PrintResponse(h), tail, 0);
  }

  const CLOSED_OK := Response(200, OK_REASON, HTTP11, [], None)

  /** The head is written as it came. */
  lemma SameHead(r: Response)
    requires r.reason == OK_REASON && r.version == HTTP11 && SeenFields(r.headers) == r.headers
    ensures PrintResponse(ReceivedResponse(r).(version := HTTP11)) == PrintResponse(r)
  {
    SeenIff(OK_REASON);
  }

  /** Neither side takes more than the head with the head, and still the client does not get back what
      was sent: the exact condition fails. */
  lemma Passes(r: Response, f: Framing, next: Bytes) returns (net: Net, client: Net)
    requires PrintableResponse(r) && |PrintResponse(r)| <= HEAD_READ && FramedAs(ReceivedResponse(r), [], f)
    requires r.reason == OK_REASON && r.version == HTTP11 && SeenFields(r.headers) == r.headers
    requires f.Encoded? || (f.Closing? && next != [])
    ensures net.rest == PrintResponse(r) + WireOf(f) && ReadResponse(net).Replied?
    ensures var sent := Transfer(net, [], |WireOf(f)|).sent;
            && sent == ContentOf(f) && client.rest == PrintResponse(r) + (sent + next)
            && !Gives(client, [], |sent + next|, r.status, ContentOf(f), next)
  {
    net := Neat(r, WireOf(f));
    NeatReads(r, WireOf(f));
    SentIs(r, [], f, net, |WireOf(f)|);
    SameHead(r);
    var sent := Transfer(net, [], |WireOf(f)|).sent;
    client := Neat(r, sent + next);
    NeatReads(r, sent + next);
    VersionToken();
    EndToEndIff(r, [], f, net, |WireOf(f)|, HTTP11, next, client, |sent + next|);
  }

  lemma ChunkedFramed()
    ensures FramedAs(ReceivedResponse(CHUNKED_OK), [], Encoded(TRAP))
    ensures SeenFields(CHUNKED_OK.headers) == CHUNKED_OK.headers
  {
    ChunkedOkReceived();
    TrapBytes();
    SeenIff(CHUNKED);
  }

  /** A chunked response arrives decoded under a head that still says it is chunked. */
  lemma ChunkedNotReadBack(next: Bytes) returns (net: Net, client: Net)
    ensures net.rest == PrintResponse(CHUNKED_OK) + CP.Encode(TRAP) && ReadResponse(net).Replied?
    ensures var content := CP.Payload(TRAP.chunks);
            && client.rest == PrintResponse(CHUNKED_OK) + (content + next)
            && !Gives(client, [], |content + next|, 200, content, next)
  {
    ChunkedOkPrintable();
    ChunkedOkLength();
    ChunkedFramed();
    net, client := Passes(CHUNKED_OK, Encoded(TRAP), next);
  }

  lemma ClosedOkPrints()
    ensures PrintableResponse(CLOSED_OK) && |PrintResponse(CLOSED_OK)| < 100
  {
    VersionToken();
    assert |ToDecimal(2)| == 1 && |ToDecimal(20)| == 2 && |ToDecimal(200)| == 3;
    var lines := [PrintStatusLine(CLOSED_OK)];
    assert FieldLines([]) == [] && lines + [] == lines && lines[1..] == [];
    assert Block(lines) == lines[0] + CRLF + Block([]);
  }

  lemma ClosedOkFramed(body: Bytes)
    ensures FramedAs(ReceivedResponse(CLOSED_OK), [], Closing(body))
  {
    var r := ReceivedResponse(CLOSED_OK);
    assert r.headers == [] && r.status == 200;
  }

  /** A response delimited by the close runs into the next one on a client connection that is kept. */
  lemma ClosingNotReadBack(body: Bytes, next: Bytes) returns (net: Net, client: Net)
    requires next != []
    ensures net.rest == PrintResponse(CLOSED_OK) + body && ReadResponse(net).Replied?
    ensures client.rest == PrintResponse(CLOSED_OK) + (body + next)
    ensures !Gives(client, [], |body + next|, 200, body, next)
  {
    ClosedOkPrints();
    ClosedOkFramed(body);
    assert SeenFields([]) == [];
    net, client := Passes(CLOSED_OK, Closing(body), next);
  }
}
