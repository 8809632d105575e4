/** What a transfer leaves on the stream when the destination stops accepting writes. */
module H1Leftover {
  import opened Common
  import opened Network
  import opened H1Body
  import opened H1BodyProofs
  import CM = ChunkedModel
  import CP = ChunkedProofs

  /** How many writes it takes to forward the body. */
  function Turns(b: Body, net: Net): nat
    decreases |net.rest| + Left(b)
  {
    ReadProgress(b, net, PUMP_READ);
    var r := ReadBody(b, net, PUMP_READ);
    if r.out.Err? || r.out.data == [] then 0 else 1 + Turns(r.body, r.net)
  }

  lemma TurnsUnfold(b: Body, net: Net, r: BodyRead)
    requires r == ReadBody(b, net, PUMP_READ)
    ensures Turns(b, net) == if r.out.Err? || r.out.data == [] then 0 else 1 + Turns(r.body, r.net)
  {
  }

  lemma TurnCases(b: Body, net: Net, quota: nat, r: BodyRead)
    requires r == ReadBody(b, net, PUMP_READ)
    ensures r.out.Ok? && r.out.data == [] ==> Pump(b, net, quota).ok && Turns(b, net) == 0
    ensures r.out.Ok? && r.out.data != [] ==>
              && Turns(b, net) == 1 + Turns(r.body, r.net)
              && Pump(b, net, quota).ok == (quota > 0 && Pump(r.body, r.net, quota - 1).ok)
  {
    PumpUnfold(b, net, quota);
    TurnsUnfold(b, net, r);
  }

  /** A transfer succeeds exactly when the destination accepts that many writes. */
  lemma {:induction false} PumpTurns(b: Body, net: Net, quota: nat, content: Bytes, suffix: Bytes)
    requires Due(b, net, content, suffix)
    ensures Pump(b, net, quota).ok <==> Turns(b, net) <= quota
    decreases |net.rest| + Left(b)
  {
    var content' := ReadDue(b, net, PUMP_READ, content, suffix);
    var r := ReadBody(b, net, PUMP_READ);
    TurnCases(b, net, quota, r);
    if r.out.data != [] && quota > 0 {
      ReadProgress(b, net, PUMP_READ);
      PumpTurns(r.body, r.net, quota - 1, content', suffix);
    }
  }

  lemma LengthRead(net: Net)
    ensures var r := ReadBody(Length(|net.rest|), net, PUMP_READ);
            if net.rest == [] then r.out == CM.Ok([]) && r.net == net
            else r.out.Ok? && r.out.data != [] && r.body == Length(|r.net.rest|) && |r.net.rest| < |net.rest|
  {
  }

  /** A sized body is read to its end exactly when at most the last of its writes fails. */
  lemma {:induction false} LengthLeft(net: Net, quota: nat)
    ensures Pump(Length(|net.rest|), net, quota).net.rest == [] <==> Turns(Length(|net.rest|), net) <= quota + 1
    decreases |net.rest|
  {
    var b := Length(|net.rest|);
    var r := ReadBody(b, net, PUMP_READ);
    LengthRead(net);
    PumpUnfold(b, net, quota);
    TurnsUnfold(b, net, r);
    if net.rest != [] {
      if quota > 0 {
        LengthLeft(r.net, quota - 1);
      } else {
        NoTurns(r.net);
      }
    }
  }

  lemma NoTurns(net: Net)
    ensures Turns(Length(|net.rest|), net) == 0 <==> net.rest == []
  {
    LengthRead(net);
    TurnsUnfold(Length(|net.rest|), net, ReadBody(Length(|net.rest|), net, PUMP_READ));
  }

  /** A body that was captured with its head leaves the stream alone. */
  lemma {:induction false} BufferLeft(data: Bytes, net: Net, quota: nat)
    ensures Pump(Buffer(data), net, quota).net == net
    decreases |data|
  {
    var r := ReadBody(Buffer(data), net, PUMP_READ);
    PumpUnfold(Buffer(data), net, quota);
    if r.out.data != [] && quota > 0 {
      BufferLeft(r.body.data, net, quota - 1);
    }
  }

  lemma StillOpen(d: CM.Decoder, net: Net, cap: nat)
    requires !d.finished
    ensures var r := CM.ReadSome(d, net, cap); r.out.Ok? && r.out.data != [] ==> !r.d.finished
  {
  }

  lemma {:induction false} EncodeNonEmpty(m: CP.Message)
    requires CP.WellFormed(m)
    ensures CP.Encode(m) != []
    decreases |m.chunks|
  {
    if m.chunks == [] {
      assert |CP.Encode(m)| >= |m.zero|;
    } else {
      assert CP.ChunkOk(m.chunks[0]);
      assert |CP.Encode(m)| >= |m.chunks[0].size|;
    }
  }

  /** While a chunked body goes on, its last chunk is still unread. */
  lemma OwesMore(d: CM.Decoder, net: Net, content: Bytes)
    requires Due(Chunks(d), net, content, []) && !d.finished
    ensures net.rest != []
  {
    var body, m :| CP.Owes(d, net.rest, body, m, []) && content == body + CP.Payload(m.chunks);
    EncodeNonEmpty(m);
    assert |net.rest| >= |CP.Encode(m)|;
  }

  /** A chunked body that goes on, behind which nothing follows. */
  ghost predicate Going(b: Body, net: Net) {
    b.Chunks? && !b.decoder.finished && exists content :: Due(b, net, content, [])
  }

  lemma ChunkTurn(b: Body, net: Net)
    requires Going(b, net)
    ensures var r := ReadBody(b, net, PUMP_READ);
            && r.out.Ok? && (r.out.data == [] <==> r.net.rest == [])
            && (r.out.data != [] ==> Going(r.body, r.net) && |r.net.rest| < |net.rest|)
  {
    var content :| Due(b, net, content, []);
    var content' := ReadDue(b, net, PUMP_READ, content, []);
    var r := ReadBody(b, net, PUMP_READ);
    if r.out.data != [] {
      StillOpen(b.decoder, net, PUMP_READ);
      ReadProgress(b, net, PUMP_READ);
      OwesMore(r.body.decoder, r.net, content');
    }
  }

  /** Every read delivers something exactly while something is left behind it. */
  predicate Busy(b: Body, net: Net)
    decreases |net.rest| + Left(b)
  {
    ReadProgress(b, net, PUMP_READ);
    var r := ReadBody(b, net, PUMP_READ);
    r.out.Ok? && if r.out.data == [] then r.net.rest == [] else r.net.rest != [] && Busy(r.body, r.net)
  }

  lemma BusyTurn(b: Body, net: Net, r: BodyRead)
    requires Busy(b, net) && r == ReadBody(b, net, PUMP_READ)
    ensures r.out.Ok? && if r.out.data == [] then r.net.rest == [] else r.net.rest != [] && Busy(r.body, r.net)
  {
  }

  predicate EmptyIffOk(p: Pumped) {
    p.net.rest == [] <==> p.ok
  }

  lemma {:induction false} BusyLeft(b: Body, net: Net, quota: nat, r: BodyRead)
    requires Busy(b, net) && r == ReadBody(b, net, PUMP_READ)
    ensures EmptyIffOk(PumpOn(r, quota))
    decreases quota
  {
    BusyTurn(b, net, r);
    if r.out.data != [] && quota > 0 {
      var r' := ReadBody(r.body, r.net, PUMP_READ);
      BusyLeft(r.body, r.net, quota - 1, r');
      PumpUnfold(r.body, r.net, quota - 1);
    }
  }

  lemma {:induction false} GoingBusy(b: Body, net: Net)
    requires Going(b, net)
    ensures Busy(b, net)
    decreases |net.rest|
  {
    ChunkTurn(b, net);
    var r := ReadBody(b, net, PUMP_READ);
    if r.out.data != [] { GoingBusy(r.body, r.net); }
  }

  /** A chunked body is read to its end exactly when all of it reaches the destination. */
  lemma ChunksLeft(b: Body, net: Net, quota: nat)
    requires Going(b, net)
    ensures Pump(b, net, quota).net.rest == [] <==> Pump(b, net, quota).ok
  {
    GoingBusy(b, net);
    BusyLeft(b, net, quota, ReadBody(b, net, PUMP_READ));
    PumpUnfold(b, net, quota);
  }

  lemma ChunksDone(b: Body, net: Net, quota: nat)
    requires Going(b, net)
    ensures net.rest != [] && (Pump(b, net, quota).net.rest == [] <==> Turns(b, net) <= quota)
  {
    var content :| Due(b, net, content, []);
    OwesMore(b.decoder, net, content);
    ChunksLeft(b, net, quota);
    PumpTurns(b, net, quota, content, []);
  }
}
