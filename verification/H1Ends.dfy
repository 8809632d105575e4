/** What a body source makes of any bytes on its stream, and what a transfer of it comes to. */
module H1Ends {
  import opened Common
  import opened Network
  import opened ChunkedStop
  import opened H1Body
  import opened H1BodyProofs
  import opened H1Leftover
  import CM = ChunkedModel

  /** Where a source stops when the bytes to come are `q` and then the stream ends. */
  function EndOf(b: Body, q: Bytes, end: Ending): Ended {
    match b
    case NoBody => Ended(q, true, [])
    case Buffer(data) => Ended(q, true, data)
    case Length(n) => if n <= |q| then Ended(q[n..], true, q[..n]) else Ended([], end == EmptyRead, q)
    case Chunks(d) => Outlook(d, q, end)
    case UntilClose => Ended([], end != Broken, q)
  }

  // ---- reads ------------------------------------------------------------------

  /** A read and what it leaves agree with what was foretold. */
  predicate Foretold(e: Ended, r: BodyRead, end: Ending) {
    && r.net.end == end
    && if r.out.Err? then !e.ok && r.net.rest == e.left
       else if r.out.data == [] then e.ok && e.content == [] && r.net.rest == e.left
       else
         var e' := EndOf(r.body, r.net.rest, end);
         e.left == e'.left && e.ok == e'.ok && (e.ok ==> e.content == r.out.data + e'.content)
  }

  lemma BufferForetold(data: Bytes, net: Net)
    ensures Foretold(EndOf(Buffer(data), net.rest, net.end), ReadBuffer(data, net, PUMP_READ), net.end)
  {
    var n := Min(PUMP_READ, |data|);
    assert data == data[..n] + data[n..];
  }

  /** The first `k` bytes of a sized body. */
  lemma LengthPart(n: nat, q: Bytes, k: nat, end: Ending)
    requires k <= n && k <= |q|
    ensures var e, e' := EndOf(Length(n), q, end), EndOf(Length(n - k), q[k..], end);
            e.left == e'.left && e.ok == e'.ok && e.content == q[..k] + e'.content
  {
    if n <= |q| {
      assert q[n..] == q[k..][n - k..] && q[..n] == q[..k] + q[k..][..n - k];
    } else {
      assert q == q[..k] + q[k..];
    }
  }

  lemma LengthForetold(n: nat, net: Net)
    ensures Foretold(EndOf(Length(n), net.rest, net.end), ReadLength(n, net, PUMP_READ), net.end)
  {
    LengthPart(n, net.rest, Size(net, Min(PUMP_READ, n)), net.end);
  }

  lemma CloseForetold(net: Net)
    ensures Foretold(EndOf(UntilClose, net.rest, net.end), ReadUntilClose(net, PUMP_READ), net.end)
  {
    var k := Size(net, PUMP_READ);
    assert net.rest == net.rest[..k] + net.rest[k..];
  }

  lemma ChunksForetold(d: CM.Decoder, net: Net)
    ensures Foretold(EndOf(Chunks(d), net.rest, net.end), ReadBody(Chunks(d), net, PUMP_READ), net.end)
  {
    ReadAgrees(d, net, PUMP_READ);
    CM.ReadKeepsEnd(d, net, PUMP_READ);
  }

  lemma ReadForetold(b: Body, net: Net)
    ensures Foretold(EndOf(b, net.rest, net.end), ReadBody(b, net, PUMP_READ), net.end)
  {
    match b
    case NoBody =>
    case Buffer(data) => BufferForetold(data, net);
    case Length(n) => LengthForetold(n, net);
    case Chunks(d) => ChunksForetold(d, net);
    case UntilClose => CloseForetold(net);
  }

  // ---- transfers --------------------------------------------------------------

  /** The stream after `k` reads from a source. */
  function AfterReads(b: Body, net: Net, k: nat): Net
    decreases k
  {
    if k == 0 then net
    else
      var r := ReadBody(b, net, PUMP_READ);
      AfterReads(r.body, r.net, k - 1)
  }

  lemma AfterOne(b: Body, net: Net, k: nat, r: BodyRead)
    requires r == ReadBody(b, net, PUMP_READ)
    ensures AfterReads(b, net, k + 1) == AfterReads(r.body, r.net, k) && AfterReads(b, net, 0) == net
  {
  }

  /** What a transfer to a destination that accepts `quota` writes comes to: `turns` is how many it takes. */
  predicate Comes(p: Pumped, e: Ended, turns: nat, quota: nat) {
    && (p.ok <==> turns <= quota && e.ok)
    && (turns <= quota ==> p.net.rest == e.left)
    && (p.ok ==> p.sent == e.content)
  }

  /** How many more writes it takes after a read. */
  function TurnsOn(r: BodyRead): nat {
    if r.out.Err? || r.out.data == [] then 0 else 1 + Turns(r.body, r.net)
  }

  lemma ComesFrom(r: BodyRead, e: Ended, end: Ending, quota: nat)
    requires Foretold(e, r, end)
    requires r.out.Ok? && r.out.data != [] && quota > 0 ==>
               Comes(Pump(r.body, r.net, quota - 1), EndOf(r.body, r.net.rest, end), Turns(r.body, r.net), quota - 1)
    ensures Comes(PumpOn(r, quota), e, TurnsOn(r), quota)
  {
  }

  lemma Unfolded(b: Body, net: Net, quota: nat, r: BodyRead, e: Ended)
    requires r == ReadBody(b, net, PUMP_READ) && Comes(PumpOn(r, quota), e, TurnsOn(r), quota)
    ensures Comes(Pump(b, net, quota), e, Turns(b, net), quota)
  {
    TurnsUnfold(b, net, r);
    PumpUnfold(b, net, quota);
  }

  lemma {:induction false} PumpEndsFrom(b: Body, net: Net, quota: nat, r: BodyRead)
    requires r == ReadBody(b, net, PUMP_READ)
    ensures Comes(PumpOn(r, quota), EndOf(b, net.rest, net.end), TurnsOn(r), quota)
    decreases quota
  {
    ReadForetold(b, net);
    if r.out.Ok? && r.out.data != [] && quota > 0 {
      var r' := ReadBody(r.body, r.net, PUMP_READ);
      PumpEndsFrom(r.body, r.net, quota - 1, r');
      Unfolded(r.body, r.net, quota - 1, r', EndOf(r.body, r.net.rest, r.net.end));
    }
    ComesFrom(r, EndOf(b, net.rest, net.end), net.end, quota);
  }

  /** For every source, whatever bytes are on its stream, however they arrive and however many writes the
      destination accepts: a transfer succeeds exactly when it accepts as many as the body takes and
      the bytes are a body, and unless the destination stops it the stream is left where they end. */
  lemma PumpEnds(b: Body, net: Net, quota: nat)
    ensures Comes(Pump(b, net, quota), EndOf(b, net.rest, net.end), Turns(b, net), quota)
  {
    var r := ReadBody(b, net, PUMP_READ);
    PumpEndsFrom(b, net, quota, r);
    Unfolded(b, net, quota, r, EndOf(b, net.rest, net.end));
  }

  /** A destination that stops the transfer has had one read for each write it was offered. */
  lemma {:induction false} PumpStopped(b: Body, net: Net, quota: nat)
    requires quota < Turns(b, net)
    ensures Pump(b, net, quota).net == AfterReads(b, net, quota + 1)
    decreases quota
  {
    var r := ReadBody(b, net, PUMP_READ);
    PumpUnfold(b, net, quota);
    TurnsUnfold(b, net, r);
    AfterOne(b, net, quota, r);
    if quota > 0 {
      PumpStopped(r.body, r.net, quota - 1);
    } else {
      AfterOne(r.body, r.net, 0, ReadBody(r.body, r.net, PUMP_READ));
    }
  }

  /** What a transfer leaves: what lies behind the end of the body if the destination accepts all of it,
      and otherwise what one read for each write offered leaves. */
  function Remains(b: Body, net: Net, quota: nat): Bytes {
    if Turns(b, net) <= quota then EndOf(b, net.rest, net.end).left else AfterReads(b, net, quota + 1).rest
  }

  lemma PumpRemains(b: Body, net: Net, quota: nat)
    ensures Pump(b, net, quota).net.rest == Remains(b, net, quota)
  {
    if Turns(b, net) <= quota { PumpEnds(b, net, quota); } else { PumpStopped(b, net, quota); }
  }

  lemma PumpOkIff(b: Body, net: Net, quota: nat)
    ensures Pump(b, net, quota).ok <==> Turns(b, net) <= quota && EndOf(b, net.rest, net.end).ok
  {
    PumpEnds(b, net, quota);
  }

  /** A transfer takes at most a write for each byte. */
  lemma {:induction false} TurnsBound(b: Body, net: Net)
    ensures Turns(b, net) <= |net.rest| + Left(b)
    decreases |net.rest| + Left(b)
  {
    var r := ReadBody(b, net, PUMP_READ);
    TurnsUnfold(b, net, r);
    if r.out.Ok? && r.out.data != [] {
      ReadProgress(b, net, PUMP_READ);
      TurnsBound(r.body, r.net);
    }
  }

  /** Whatever follows the head of a chunked response on the stream, its transfer leaves what lies
      behind `Stop`, for every fragmentation. */
  lemma ChunkedPumpStops(net: Net, quota: nat)
    requires quota >= |net.rest|
    ensures var p, e := Pump(Chunks(CM.Decoder(0, false)), net, quota), FromLine(net.rest, net.end);
            && p.net.rest == net.rest[Stop(net.rest)..]
            && (p.ok <==> e.ok) && (p.ok ==> p.sent == e.content)
  {
    var b := Chunks(CM.Decoder(0, false));
    TurnsBound(b, net);
    PumpEnds(b, net, quota);
    StopsAlike(net.rest, net.end);
  }
}
