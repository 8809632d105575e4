/**
  The relays of a worker with the bytes of their backend connections.  What a relay is told of a response
  and of its transfer is what the codec makes of the bytes that the backend sends.
 */
module RelayBytes {
  import opened Common
  import opened Network
  import opened RelayModel
  import opened RelayInvariant
  import opened RelaySafety
  import opened RelayRest
  import H1Head
  import H1Body

  /** The read side of every backend stream, and for each relay the source of the body it forwards. */
  datatype Wires = Wires(nets: map<StreamId, Net>, bodies: seq<H1Body.Body>)

  datatype BWorld = BWorld(w: World, v: Wires)

  /** What the other end does: how reads are cut, what the backend sends for this request and how its
      stream ends if it is read to the end, and how many writes the client accepts. */
  datatype Choice = Choice(cut: nat -> nat, sent: Bytes, end: Ending, quota: nat)

  datatype BEvent = BEvent(e: Event, c: Choice)

  // ---- reading a response -----------------------------------------------------

  /** The stream once the backend has sent. */
  function Receiving(net: Net, c: Choice): Net {
    net.(rest := net.rest + c.sent, end := c.end)
  }

  function Told(m: H1Body.ResponseRead): Outcome {
    match m
    case NoResponse(_) => Failed
    case Replied(head, body, keepAlive, _) => Answered(head.status, keepAlive, !body.NoBody?)
  }

  function BodyOf(m: H1Body.ResponseRead): H1Body.Body {
    if m.Replied? then m.body else H1Body.NoBody
  }

  // ---- forwarding it ----------------------------------------------------------

  /** Whether a response with this body reaches a client that accepts `quota` writes, the head being one. */
  predicate Arrives(b: H1Body.Body, net: Net, quota: nat) {
    quota > 0 && H1Body.Pump(b, net, quota - 1).ok
  }

  /** What is left of the backend stream. */
  function Leftover(b: H1Body.Body, net: Net, quota: nat): Net {
    if quota == 0 then net else H1Body.Pump(b, net, quota - 1).net
  }

  /** The body the relay passes on: none when there is none or the request was HEAD. */
  function Forwarded(b: H1Body.Body, hasBody: bool): H1Body.Body {
    if hasBody then b else H1Body.NoBody
  }

  // ---- events -----------------------------------------------------------------

  /** The operation an event of the worker completes. */
  function OpOf(w: World, e: Event): Option<Op>
    requires Enabled(w, e)
  {
    if e.Accept? then None else Completed(w.relays[e.relay], e)
  }

  predicate ReadsReply(w: World, e: Event)
    requires Enabled(w, e)
  {
    OpOf(w, e).Some? && OpOf(w, e).value.ParseResponse? && OnTcp(w.relays[e.relay])
  }

  predicate ForwardsReply(w: World, e: Event)
    requires Enabled(w, e)
  {
    OpOf(w, e).Some? && OpOf(w, e).value.WriteResponse? && OnTcp(w.relays[e.relay])
  }

  predicate OpensStream(w: World, e: Event)
    requires Enabled(w, e)
  {
    OpOf(w, e).Some? && OpOf(w, e).value.Connect? && e.outcome.Connected?
  }

  /** The stream of the relay an event names, and the body that relay is forwarding. */
  function NetOf(b: BWorld, e: Event): Net
    requires !e.Accept? && e.relay < |b.w.relays| && b.w.relays[e.relay].peer.backend.Stream?
    requires b.w.relays[e.relay].peer.backend.id in b.v.nets
  {
    b.v.nets[b.w.relays[e.relay].peer.backend.id]
  }

  predicate Wired(b: BWorld) {
    && |b.v.bodies| == |b.w.relays|
    && forall k :: 0 <= k < |b.w.relays| && b.w.relays[k].peer.backend.Stream? ==>
         b.w.relays[k].peer.backend.id in b.v.nets
  }

  /** The event is enabled, and its outcome is what the codec makes of the bytes. */
  predicate BEnabled(b: BWorld, be: BEvent) {
    && Wired(b) && Enabled(b.w, be.e)
    && (ReadsReply(b.w, be.e) ==> be.e.outcome == Told(H1Body.ReadResponse(Receiving(NetOf(b, be.e), be.c))))
    && (ForwardsReply(b.w, be.e) ==>
          var body := Forwarded(b.v.bodies[be.e.relay], OpOf(b.w, be.e).value.hasBody);
          be.e.outcome.Ok? <==> Arrives(body, NetOf(b, be.e), be.c.quota))
  }

  function NextWires(b: BWorld, be: BEvent): Wires
    requires BEnabled(b, be)
  {
    var v, e, c := b.v, be.e, be.c;
    if e.Accept? then v.(bodies := v.bodies + [H1Body.NoBody])
    else if ReadsReply(b.w, e) then
      var m := H1Body.ReadResponse(Receiving(NetOf(b, e), c));
      Wires(v.nets[b.w.relays[e.relay].peer.backend.id := m.net], v.bodies[e.relay := BodyOf(m)])
    else if ForwardsReply(b.w, e) then
      var body := Forwarded(v.bodies[e.relay], OpOf(b.w, e).value.hasBody);
      v.(nets := v.nets[b.w.relays[e.relay].peer.backend.id := Leftover(body, NetOf(b, e), c.quota)])
    else if OpensStream(b.w, e) then v.(nets := v.nets[b.w.sh.streams.next := Net([], 0, c.cut, EofError)])
    else v
  }

  function BNext(b: BWorld, be: BEvent): BWorld
    requires BEnabled(b, be)
  {
    BWorld(Next(b.w, be.e), NextWires(b, be))
  }

  predicate BLegal(b: BWorld, run: seq<BEvent>)
    decreases |run|
  {
    run == [] || (BEnabled(b, run[0]) && BLegal(BNext(b, run[0]), run[1..]))
  }

  function BExec(b: BWorld, run: seq<BEvent>): BWorld
    requires BLegal(b, run)
    decreases |run|
  {
    if run == [] then b else BExec(BNext(b, run[0]), run[1..])
  }

  predicate BInitial(b: BWorld) {
    Initial(b.w) && b.v == Wires(map[], [])
  }
}
