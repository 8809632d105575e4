/** What is left unread on the streams that relays return to the pool. */
module RelayBytesProofs {
  import opened Common
  import opened Network
  import opened RelayModel
  import opened RelayInvariant
  import opened RelaySteps
  import opened RelaySafety
  import opened RelayRest
  import opened RelayBytes
  import H1Head
  import H1Body
  import HP = H1HeadProofs
  import BP = H1BodyProofs

  // ---- streams and connections ------------------------------------------------

  predicate OpensAt(r: Relay, e: Event)
    requires EnabledAt(r, e)
  {
    e.Complete? && Nth(r.ctl.pending, e.index).Connect? && e.outcome.Connected?
  }

  lemma ConnectStreams(r: Relay, sh: Shared, use: ConnectUse, ep: Endpoint, o: Outcome)
    requires Fits(Connect(use, ep), o)
    ensures OnComplete(r, sh, Connect(use, ep), o).sh.streams.next == sh.streams.next + if o.Connected? then 1 else 0
  {
  }

  lemma DispatchStreams(r: Relay, sh: Shared, req: Req)
    ensures Dispatch(r, sh, req).sh.streams == sh.streams
  {
  }

  lemma ParsedStreams(r: Relay, sh: Shared, req: Req)
    ensures OnParsed(r, sh, req).sh.streams == sh.streams
  {
    DispatchStreams(BeginExchange(r, req), CountRequest(sh), req);
  }

  lemma OtherStreams(r: Relay, sh: Shared, op: Op, o: Outcome)
    requires Fits(op, o) && !op.Connect? && !op.ParseRequest?
    ensures OnComplete(r, sh, op, o).sh.streams.next == sh.streams.next
  {
  }

  /** Streams are created by connects that succeed and by nothing else. */
  lemma StreamsStep(r: Relay, sh: Shared, e: Event)
    requires EnabledAt(r, e)
    ensures Act(r, sh, e).sh.streams.next == sh.streams.next + if OpensAt(r, e) then 1 else 0
  {
    if e.Complete? {
      var r0, op := Drop(r, e.index), Nth(r.ctl.pending, e.index);
      if op.Connect? {
        ConnectStreams(r0, sh, op.use, op.ep, e.outcome);
      } else if op.ParseRequest? {
        if e.outcome.Parsed? { ParsedStreams(r0, sh, e.outcome.req); }
      } else {
        OtherStreams(r0, sh, op, e.outcome);
      }
    }
  }

  /** Every stream ever created has its bytes. */
  ghost predicate Kept(b: BWorld) {
    |b.v.bodies| == |b.w.relays| && forall s: StreamId :: s < b.w.sh.streams.next <==> s in b.v.nets
  }

  ghost predicate BInv(b: BWorld) {
    Inv(b.w) && Kept(b)
  }

  lemma WiredInv(b: BWorld)
    requires BInv(b)
    ensures Wired(b)
  {
    forall k | 0 <= k < |b.w.relays| && b.w.relays[k].peer.backend.Stream?
      ensures b.w.relays[k].peer.backend.id in b.v.nets
    {
      assert Linked(b.w.relays[k], b.w.sh.streams);
    }
  }

  /** An event touches the stream and the body of the relay it names, or the stream just created. */
  ghost predicate OnlyAt(v: Wires, v': Wires, k: nat, s: Link, next: StreamId) {
    && |v'.bodies| == |v.bodies|
    && (forall j :: 0 <= j < |v.bodies| && j != k ==> v'.bodies[j] == v.bodies[j])
    && (forall x :: x in v.nets && Stream(x) != s && x != next ==> x in v'.nets && v'.nets[x] == v.nets[x])
    && (forall x :: x in v.nets ==> x in v'.nets)
  }

  lemma TouchesOnly(b: BWorld, be: BEvent)
    requires BEnabled(b, be) && !be.e.Accept?
    ensures OnlyAt(b.v, NextWires(b, be), be.e.relay, b.w.relays[be.e.relay].peer.backend, b.w.sh.streams.next)
    ensures forall x :: x in NextWires(b, be).nets ==>
              x in b.v.nets || (OpensStream(b.w, be.e) && x == b.w.sh.streams.next)
    ensures OpensStream(b.w, be.e) ==> b.w.sh.streams.next in NextWires(b, be).nets
    ensures OpensStream(b.w, be.e) ==> NextWires(b, be).nets[b.w.sh.streams.next].rest == []
  {
  }

  lemma BStepInv(b: BWorld, be: BEvent)
    requires BInv(b) && BEnabled(b, be) && !BNext(b, be).w.sh.crashed
    ensures BInv(BNext(b, be))
  {
    StepInv(b.w, be.e);
    if !be.e.Accept? {
      TouchesOnly(b, be);
      StreamsStep(b.w.relays[be.e.relay], b.w.sh, be.e);
    }
  }

  // ---- what the codec leaves --------------------------------------------------

  function Method(isHead: bool): Bytes {
    if isHead then H1Body.HEAD_METHOD else []
  }

  /** `net` holds one whole response to the request and nothing else, and no chunked body was
      read along with its head. */
  ghost predicate OneResponse(net: Net, isHead: bool) {
    exists r, f ::
      && HP.PrintableResponse(r) && BP.FramedAs(HP.ReceivedResponse(r), Method(isHead), f)
      && net.rest == H1Head.PrintResponse(r) + BP.WireOf(f)
      && (f.Encoded? ==> H1Body.ReadBlock(net, []).Framed? && H1Body.ReadBlock(net, []).prefix == [])
  }

  /** The source will be read to its end with nothing left behind it. */
  ghost predicate WillEnd(body: H1Body.Body, net: Net) {
    exists content :: BP.Due(body, net, content, [])
  }

  lemma ReadsWhole(net: Net, isHead: bool)
    requires OneResponse(net, isHead)
    ensures var m := H1Body.ReadResponse(net);
            m.Replied? && (m.keepAlive ==> WillEnd(Forwarded(m.body, !m.body.NoBody? && !isHead), m.net))
  {
    var r, f :|
      && HP.PrintableResponse(r) && BP.FramedAs(HP.ReceivedResponse(r), Method(isHead), f)
      && net.rest == H1Head.PrintResponse(r) + BP.WireOf(f)
      && (f.Encoded? ==> H1Body.ReadBlock(net, []).Framed? && H1Body.ReadBlock(net, []).prefix == []);
    BP.ReadsResponse(r, BP.WireOf(f), net);
    var b := H1Body.ReadBlock(net, []);
    var m := H1Body.ReadResponse(net);
    if !f.Closing? {
      BP.ResponseBodyDue(m.head, Method(isHead), f, b.prefix, b.net);
      ForwardedAlike(m.body, isHead);
    }
  }

  lemma ForwardedAlike(body: H1Body.Body, isHead: bool)
    ensures H1Body.ForwardedBody(Method(isHead), body) == Forwarded(body, !body.NoBody? && !isHead)
  {
    assert [] != H1Body.HEAD_METHOD;
  }

  lemma ForwardsWhole(body: H1Body.Body, net: Net, quota: nat)
    requires WillEnd(body, net) && Arrives(body, net, quota)
    ensures Leftover(body, net, quota).rest == []
  {
    PumpWhole(body, net, quota - 1, H1Body.Pump(body, net, quota - 1));
  }

  lemma PumpWhole(body: H1Body.Body, net: Net, quota: nat, p: H1Body.Pumped)
    requires WillEnd(body, net) && p == H1Body.Pump(body, net, quota)
    ensures p.ok ==> p.net.rest == []
  {
    var content :| BP.Due(body, net, content, []);
    BP.PumpDue(body, net, quota, content, []);
  }

  // ---- rested runs ------------------------------------------------------------

  function CleanSet(v: Wires): (c: set<StreamId>)
    ensures forall s :: s in c <==> s in v.nets && v.nets[s].rest == []
  {
    set s | s in v.nets && v.nets[s].rest == []
  }

  /** The response relay `r` is forwarding will be read to its end. */
  ghost predicate Ends(r: Relay, v: Wires, body: H1Body.Body) {
    && OnTcp(r) && r.peer.backend.id in v.nets && r.ctl.pending.Cons? && r.ctl.pending.op.WriteResponse?
    && WillEnd(Forwarded(body, r.ctl.pending.op.hasBody), v.nets[r.peer.backend.id])
  }

  ghost predicate BRested(b: BWorld) {
    && |b.v.bodies| == |b.w.relays|
    && IdleRested(b.w.sh.pool.entries, CleanSet(b.v))
    && forall k :: 0 <= k < |b.w.relays| ==>
         Rested(b.w.relays[k], CleanSet(b.v), Ends(b.w.relays[k], b.v, b.v.bodies[k]))
  }

  /** The backend answers each request with one response, no chunked one is over-read, and a response
      whose connection is kept reaches its client. */
  ghost predicate Orderly(b: BWorld, be: BEvent)
    requires BEnabled(b, be)
  {
    && (ReadsReply(b.w, be.e) ==>
          OneResponse(Receiving(NetOf(b, be.e).(rest := []), be.c), b.w.relays[be.e.relay].ex.isHead))
    && (ForwardsReply(b.w, be.e) && OpOf(b.w, be.e).value.keepAlive ==> be.e.outcome.Ok?)
  }

  /** Whether the response just parsed, or the one being forwarded, will end. */
  ghost function EndsNext(b: BWorld, be: BEvent): bool
    requires BEnabled(b, be) && !be.e.Accept?
  {
    var r := b.w.relays[be.e.relay];
    if ReadsReply(b.w, be.e) then
      var m := H1Body.ReadResponse(Receiving(NetOf(b, be.e), be.c));
      WillEnd(Forwarded(BodyOf(m), !BodyOf(m).NoBody? && !r.ex.isHead), m.net)
    else if be.e.Complete? then true
    else Ends(r, b.v, b.v.bodies[be.e.relay])
  }

  lemma ReadsCleans(b: BWorld, be: BEvent)
    requires BEnabled(b, be) && ReadsReply(b.w, be.e) && Orderly(b, be)
    ensures be.e.outcome.Answered? && be.e.outcome.keepAlive && NetOf(b, be.e).rest == [] ==> EndsNext(b, be)
  {
    if NetOf(b, be.e).rest == [] {
      assert NetOf(b, be.e) == NetOf(b, be.e).(rest := []);
      ReadsWhole(Receiving(NetOf(b, be.e), be.c), b.w.relays[be.e.relay].ex.isHead);
    }
  }

  lemma ForwardsCleans(b: BWorld, be: BEvent)
    requires BEnabled(b, be) && ForwardsReply(b.w, be.e) && Orderly(b, be)
    ensures var r := b.w.relays[be.e.relay];
            OpOf(b.w, be.e).value.keepAlive && be.e.index == 0 && Ends(r, b.v, b.v.bodies[be.e.relay]) ==>
              r.peer.backend.id in CleanSet(NextWires(b, be))
  {
    var r := b.w.relays[be.e.relay];
    var op := OpOf(b.w, be.e).value;
    if op.keepAlive && be.e.index == 0 && Ends(r, b.v, b.v.bodies[be.e.relay]) {
      ForwardsWhole(Forwarded(b.v.bodies[be.e.relay], op.hasBody), NetOf(b, be.e), be.c.quota);
    }
  }

  // ---- the next operation -----------------------------------------------------

  /** The relay waits for a response to be written, from a TCP backend. */
  predicate Forwarding(r: Relay) {
    OnTcp(r) && r.ctl.pending.Cons? && r.ctl.pending.op.WriteResponse?
  }

  lemma DispatchNot(r: Relay, sh: Shared, req: Req)
    requires r.ctl.pending.Nil?
    ensures !Forwarding(Dispatch(r, sh, req).r)
  {
  }

  lemma ParsedNot(r: Relay, sh: Shared, req: Req)
    requires r.ctl.pending.Nil?
    ensures !Forwarding(OnParsed(r, sh, req).r)
  {
    DispatchNot(BeginExchange(r, req), CountRequest(sh), req);
  }

  lemma OtherNot(r: Relay, sh: Shared, op: Op, o: Outcome)
    requires r.ctl.pending.Nil? && Fits(op, o) && !op.ParseRequest? && !op.ParseResponse? && !IsPump(op)
    ensures !Forwarding(OnComplete(r, sh, op, o).r)
  {
    if op.WriteResponse? { ResponseWrittenResult(r, sh, op.keepAlive); }
  }

  lemma PumpNot(r: Relay, sh: Shared, op: Op, o: Outcome)
    requires (r.ctl.pending.Cons? ==> IsPump(r.ctl.pending.op)) && Fits(op, o) && IsPump(op)
    ensures !Forwarding(OnComplete(r, sh, op, o).r)
  {
  }

  lemma ReplyNext(r: Relay, sh: Shared, o: Outcome)
    requires r.ctl.pending.Nil? && (o.Answered? || o.Failed?)
    ensures var r' := OnResponse(r, sh, o).r;
            Forwarding(r') ==>
              && o.Answered? && r'.peer == r.peer
              && r'.ctl.pending.op == WriteResponse(o.keepAlive, o.hasBody && !r.ex.isHead)
  {
    CloseKeepsRest(r, sh);
  }

  /** Of an exchange only one operation is pending. */
  lemma OnlyOne(r: Relay, i: nat)
    requires LocalOk(r) && i < Length(r.ctl.pending)
    ensures if r.ctl.pending.Cons? && !IsPump(r.ctl.pending.op)
            then i == 0 && r.ctl.pending == Cons(r.ctl.pending.op, Nil)
            else IsPump(Nth(r.ctl.pending, i)) && (Drop(r, i).ctl.pending.Cons? ==> IsPump(Drop(r, i).ctl.pending.op))
  {
    if r.ctl.pending.Cons? && !IsPump(r.ctl.pending.op) {
      assert r.ctl.pending.rest.Nil? && Length(r.ctl.pending.rest) == 0;
    } else {
      DropHalf(r, i);
    }
  }

  /** A response begins to be forwarded when one has been parsed, and at no other event. */
  lemma ForwardingFrom(r: Relay, sh: Shared, e: Event)
    requires LocalOk(r) && EnabledAt(r, e) && Forwarding(Act(r, sh, e).r)
    ensures var r' := Act(r, sh, e).r;
            if e.Complete? then
              && Nth(r.ctl.pending, e.index).ParseResponse? && e.outcome.Answered? && r'.peer == r.peer
              && r'.ctl.pending.op == WriteResponse(e.outcome.keepAlive, e.outcome.hasBody && !r.ex.isHead)
            else r'.peer == r.peer && r'.ctl.pending == r.ctl.pending
  {
    if e.Complete? {
      OnlyOne(r, e.index);
      var op, r0, o := Nth(r.ctl.pending, e.index), Drop(r, e.index), e.outcome;
      if op.ParseRequest? {
        if o.Parsed? { ParsedNot(r0, sh, o.req); }
      } else if op.ParseResponse? {
        ReplyNext(r0, sh, o);
      } else if IsPump(op) {
        PumpNot(r0, sh, op, o);
      } else {
        OtherNot(r0, sh, op, o);
      }
    }
  }

  // ---- what a relay is told ---------------------------------------------------

  /** Of a response that the backend prints a relay is told its status, whether it has a body, and whether its
      connection can be kept, which it cannot when the response is delimited by the close. */
  lemma ToldForm(r: H1Head.Response, f: BP.Framing, net: Net)
    requires HP.PrintableResponse(r) && BP.FramedAs(HP.ReceivedResponse(r), [], f)
    requires net.rest == H1Head.PrintResponse(r) + BP.WireOf(f)
    ensures Told(H1Body.ReadResponse(net)) ==
            Answered(r.status, !f.Closing? && H1Head.KeepAlive(HP.SeenFields(r.headers), H1Head.WireVersion(r.version)),
                     f.Encoded? || f.Closing? || (f.Sized? && f.body != []))
  {
    BP.ReadsResponse(r, BP.WireOf(f), net);
    var b := H1Body.ReadBlock(net, []);
    if f.Sized? { assert |b.prefix + b.net.rest| == |b.prefix| + |b.net.rest| == |f.body|; }
  }
}
