/** What every run of a worker and its backends says of the streams in the pool. */
module RelayBytesTheorems {
  import opened Common
  import opened Network
  import opened RelayModel
  import opened RelayInvariant
  import opened RelaySteps
  import opened RelayShared
  import opened RelaySafety
  import opened RelayRest
  import opened RelayBytes
  import opened RelayBytesProofs
  import opened RelayBytesRuns
  import opened H1Leftover
  import opened H1Ends
  import opened ChunkedStop
  import H1Body
  import BP = H1BodyProofs
  import CM = ChunkedModel

  // ---- every run --------------------------------------------------------------

  lemma InitialKept(b: BWorld)
    requires BInitial(b)
    ensures Kept(b)
  {
  }

  lemma InitialBInv(b: BWorld)
    requires BInitial(b)
    ensures BInv(b)
  {
    InitialInv(b.w);
    InitialKept(b);
  }

  lemma InitialBRested(b: BWorld)
    requires BInitial(b)
    ensures BRested(b)
  {
    EmptyRested(b.w.sh.pool.entries, CleanSet(b.v));
  }

  lemma EmptyRested(entries: seq<Entry>, clean: set<StreamId>)
    requires forall k :: 0 <= k < |entries| ==> entries[k].idle == []
    ensures IdleRested(entries, clean)
  {
    forall k | 0 <= k < |entries|
      ensures EntryRested(entries[k], clean)
    {
      assert entries[k].idle == [];
    }
  }

  lemma {:induction false} ExecBInv(b: BWorld, run: seq<BEvent>)
    requires BInv(b) && BLegal(b, run)
    ensures BExec(b, run).w.sh.crashed || BInv(BExec(b, run))
    decreases |run|
  {
    if run != [] {
      var b1 := BNext(b, run[0]);
      if b1.w.sh.crashed {
        assert run[1..] == [];
      } else {
        BStepInv(b, run[0]);
        ExecBInv(b1, run[1..]);
      }
    }
  }

  lemma RunBInv(b: BWorld, run: seq<BEvent>)
    requires BInitial(b) && BLegal(b, run)
    ensures BExec(b, run).w.sh.crashed || BInv(BExec(b, run))
  {
    InitialBInv(b);
    ExecBInv(b, run);
  }

  /** `b` is reached by a run that dereferences no null pointer. */
  ghost predicate BReachable(b: BWorld) {
    !b.w.sh.crashed && exists b0, run :: BInitial(b0) && BLegal(b0, run) && BExec(b0, run) == b
  }

  lemma BReachableInv(b: BWorld)
    requires BReachable(b)
    ensures BInv(b)
  {
    var b0, run :| BInitial(b0) && BLegal(b0, run) && BExec(b0, run) == b;
    RunBInv(b0, run);
  }

  /** Every backend stream has its bytes in every reachable state, so events are enabled or not by
      their outcomes alone. */
  lemma AlwaysWired(b: BWorld)
    requires BReachable(b)
    ensures Wired(b)
  {
    BReachableInv(b);
    WiredInv(b);
  }

  // ---- orderly runs -----------------------------------------------------------

  ghost predicate OrderlyRun(b: BWorld, run: seq<BEvent>)
    requires BLegal(b, run)
    decreases |run|
  {
    run == [] || (Orderly(b, run[0]) && OrderlyRun(BNext(b, run[0]), run[1..]))
  }

  lemma {:induction false} ExecRested(b: BWorld, run: seq<BEvent>)
    requires BInv(b) && BRested(b) && BLegal(b, run) && OrderlyRun(b, run)
    ensures BExec(b, run).w.sh.crashed || BRested(BExec(b, run))
    decreases |run|
  {
    if run != [] {
      var b1 := BNext(b, run[0]);
      if b1.w.sh.crashed {
        assert run[1..] == [];
      } else {
        BStepInv(b, run[0]);
        StepBRested(b, run[0]);
        ExecRested(b1, run[1..]);
      }
    }
  }

  lemma RunRested(b0: BWorld, run: seq<BEvent>)
    requires BInitial(b0) && BLegal(b0, run) && OrderlyRun(b0, run)
    ensures BExec(b0, run).w.sh.crashed || BRested(BExec(b0, run))
  {
    InitialBInv(b0);
    InitialBRested(b0);
    ExecRested(b0, run);
  }

  /** For backends that send one response per request, when no chunked response was over-read and
      every response whose connection is kept reached its client: each stream in the pool has had its
      responses read to their ends, and nothing is left on it. */
  lemma IdleStreamsAreEmpty(b0: BWorld, run: seq<BEvent>, b: BWorld, k: nat, i: nat)
    requires BInitial(b0) && BLegal(b0, run) && OrderlyRun(b0, run) && b == BExec(b0, run) && !b.w.sh.crashed
    requires k < |b.w.sh.pool.entries| && i < |b.w.sh.pool.entries[k].idle|
    ensures var s := b.w.sh.pool.entries[k].idle[i]; s in b.v.nets && b.v.nets[s].rest == []
  {
    RunRested(b0, run);
    assert EntryRested(b.w.sh.pool.entries[k], CleanSet(b.v));
  }

  // ---- exactly when a stream is pooled with bytes on it -----------------------

  lemma FinishSlots(r: Relay, sh: Shared, keepAlive: bool)
    requires Alone(r, sh) && r.peer.backend.Stream?
    ensures IdleSlots(OnResponseWritten(r, sh, keepAlive).sh.pool.entries, r.peer.backend.id) ==
            if keepAlive && Slot(sh.pool, r.peer.endpoint) < |sh.pool.entries| then 1 else 0
  {
    var s, k := r.peer.backend.id, Slot(sh.pool, r.peer.endpoint);
    if k < |sh.pool.entries| { EnqueueCount(sh.pool.entries, k, s, s); }
  }

  /** The body that the completed write was forwarding. */
  function BodyAt(b: BWorld, be: BEvent): H1Body.Body
    requires BEnabled(b, be) && ForwardsReply(b.w, be.e)
  {
    Forwarded(b.v.bodies[be.e.relay], OpOf(b.w, be.e).value.hasBody)
  }

  /** The write returns its stream to the pool. */
  predicate Returns(w: World, e: Event)
    requires Enabled(w, e) && ForwardsReply(w, e)
  {
    && OpOf(w, e).value.keepAlive
    && Slot(w.sh.pool, w.relays[e.relay].peer.endpoint) < |w.sh.pool.entries|
  }

  lemma ForwardSlots(w: World, e: Event)
    requires Inv(w) && Enabled(w, e) && ForwardsReply(w, e)
    ensures IdleSlots(Next(w, e).sh.pool.entries, w.relays[e.relay].peer.backend.id) == if Returns(w, e) then 1 else 0
  {
    RelayAlone(w, e.relay);
    FinishSlots(Drop(w.relays[e.relay], e.index), w.sh, OpOf(w, e).value.keepAlive);
  }

  /** The same with the head as the first write: a client that does not accept it leaves the body unread. */
  function Unread(body: H1Body.Body, net: Net, quota: nat): Bytes {
    if quota == 0 then net.rest else Remains(body, net, quota - 1)
  }

  lemma LeftoverIs(body: H1Body.Body, net: Net, quota: nat)
    ensures Leftover(body, net, quota).rest == Unread(body, net, quota)
  {
    if quota > 0 { PumpRemains(body, net, quota - 1); }
  }

  lemma ArrivesIff(body: H1Body.Body, net: Net, quota: nat)
    ensures Arrives(body, net, quota) <==> Turns(body, net) < quota && EndOf(body, net.rest, net.end).ok
  {
    if quota > 0 { PumpOkIff(body, net, quota - 1); }
  }

  /** Whatever the backend sends, well-formed or not, however it arrives and whatever the client accepts:
      the stream is pooled with bytes on it exactly when the connection is kept, its queue has room, and
      bytes remain behind the body or behind the read at which the client stopped. */
  lemma PooledUnreadIff(b: BWorld, be: BEvent)
    requires BReachable(b) && BEnabled(b, be) && ForwardsReply(b.w, be.e)
    ensures var s, b' := b.w.relays[be.e.relay].peer.backend.id, BNext(b, be);
            && s in b'.v.nets
            && ((IdleSlots(b'.w.sh.pool.entries, s) == 1 && b'.v.nets[s].rest != []) <==>
                (Returns(b.w, be.e) && Unread(BodyAt(b, be), NetOf(b, be.e), be.c.quota) != []))
  {
    BReachableInv(b);
    ForwardSlots(b.w, be.e);
    LeftoverIs(BodyAt(b, be), NetOf(b, be.e), be.c.quota);
  }

  /** For a chunked response and a client that accepts it: exactly when the bytes that were not read along
      with the head hold more than the decoder stops at. */
  lemma ChunkedUnreadIff(b: BWorld, be: BEvent)
    requires BReachable(b) && BEnabled(b, be) && ForwardsReply(b.w, be.e)
    requires BodyAt(b, be).Chunks? && Turns(BodyAt(b, be), NetOf(b, be.e)) < be.c.quota
    ensures var s, b', q := b.w.relays[be.e.relay].peer.backend.id, BNext(b, be), NetOf(b, be.e).rest;
            && s in b'.v.nets && b'.v.nets[s].rest == q[Stop(q)..]
            && ((IdleSlots(b'.w.sh.pool.entries, s) == 1 && b'.v.nets[s].rest != []) <==>
                (Returns(b.w, be.e) && Stop(q) < |q|))
            && (be.e.outcome.Ok? <==> FromLine(q, NetOf(b, be.e).end).ok)
  {
    BReachableInv(b);
    ReachableSources(b);
    SourceAt(b, be);
    ForwardSlots(b.w, be.e);
    LeftoverIs(BodyAt(b, be), NetOf(b, be.e), be.c.quota);
    ArrivesIff(BodyAt(b, be), NetOf(b, be.e), be.c.quota);
    StopsAlike(NetOf(b, be.e).rest, NetOf(b, be.e).end);
  }

  /** The client accepts enough for the body to be read to its end: nothing is needed for a body
      captured with its head, all but the last write for a sized one, every write for a chunked one. */
  predicate Drained(body: H1Body.Body, net: Net, quota: nat) {
    match body
    case Length(_) => Turns(body, net) <= quota
    case Chunks(_) => Turns(body, net) < quota
    case _ => true
  }

  lemma LeftoverLength(n: nat, net: Net, quota: nat)
    requires n == |net.rest|
    ensures Leftover(H1Body.Length(n), net, quota).rest == [] <==> Turns(H1Body.Length(n), net) <= quota
  {
    if quota == 0 { NoTurns(net); } else { LengthLeft(net, quota - 1); }
  }

  lemma LeftoverChunks(body: H1Body.Body, net: Net, quota: nat)
    requires Going(body, net)
    ensures Leftover(body, net, quota).rest == [] <==> Turns(body, net) < quota
  {
    ChunksDone(body, net, if quota == 0 then 0 else quota - 1);
  }

  /** For a source behind which nothing follows, what the transfer leaves depends on the number of
      writes accepted alone. */
  lemma LeftoverIff(body: H1Body.Body, net: Net, quota: nat)
    requires WillEnd(body, net) && !body.UntilClose? && (body.Chunks? ==> !body.decoder.finished)
    ensures Leftover(body, net, quota).rest == [] <==> Drained(body, net, quota)
  {
    var content :| BP.Due(body, net, content, []);
    match body
    case NoBody => if quota > 0 { BP.PumpUnfold(body, net, quota - 1); }
    case Buffer(data) => if quota > 0 { BufferLeft(data, net, quota - 1); }
    case Length(n) =>
      assert content + [] == content;
      LeftoverLength(n, net, quota);
    case Chunks(_) => LeftoverChunks(body, net, quota);
    case UntilClose =>
  }

  // ---- the sources relays forward ---------------------------------------------

  /** A chunked source starts afresh, and a response delimited by the close never keeps its connection. */
  predicate SourceOk(r: Relay, body: H1Body.Body) {
    Forwarding(r) ==>
      && (body.Chunks? ==> body.decoder == CM.Decoder(0, false))
      && (body.UntilClose? ==> !r.ctl.pending.op.keepAlive)
  }

  predicate SourcesOk(b: BWorld) {
    |b.v.bodies| == |b.w.relays| && forall k :: 0 <= k < |b.w.relays| ==> SourceOk(b.w.relays[k], b.v.bodies[k])
  }

  lemma ReadSource(b: BWorld, be: BEvent, r': Relay)
    requires BEnabled(b, be) && ReadsReply(b.w, be.e) && be.e.outcome.Answered?
    requires r'.ctl.pending.Cons? && r'.ctl.pending.op.WriteResponse?
    requires r'.ctl.pending.op.keepAlive == be.e.outcome.keepAlive
    ensures be.e.relay < |NextWires(b, be).bodies| && SourceOk(r', NextWires(b, be).bodies[be.e.relay])
  {
    FreshSource(Receiving(NetOf(b, be.e), be.c));
  }

  lemma FreshSource(net: Net)
    ensures var m := H1Body.ReadResponse(net);
            m.Replied? ==>
              && (m.body.Chunks? ==> m.body.decoder == CM.Decoder(0, false))
              && (m.body.UntilClose? ==> !m.keepAlive)
  {
    var f := H1Body.ReadBlock(net, []);
    if f.Framed? { FreshBody(f.raw, f.prefix); }
  }

  lemma FreshBody(raw: Bytes, prefix: Bytes)
    ensures var p := H1Head.ParseResponse(raw);
            p.Some? ==> var b := H1Body.ResponseBody(p.value, prefix); b.Chunks? ==> b.decoder == CM.Decoder(0, false)
  {
  }

  lemma SelfSource(b: BWorld, be: BEvent, r': Relay)
    requires BInv(b) && BEnabled(b, be) && SourcesOk(b) && !be.e.Accept?
    requires r' == Act(b.w.relays[be.e.relay], b.w.sh, be.e).r
    ensures be.e.relay < |NextWires(b, be).bodies| && SourceOk(r', NextWires(b, be).bodies[be.e.relay])
  {
    var r := b.w.relays[be.e.relay];
    assert LocalOk(r) && SourceOk(r, b.v.bodies[be.e.relay]);
    TouchesOnly(b, be);
    if Forwarding(r') {
      ForwardingFrom(r, b.w.sh, be.e);
      if be.e.Complete? { ReadSource(b, be, r'); }
    }
  }

  lemma StepSources(b: BWorld, be: BEvent)
    requires BInv(b) && BEnabled(b, be) && SourcesOk(b)
    ensures SourcesOk(BNext(b, be))
  {
    var b' := BNext(b, be);
    if be.e.Accept? {
      assert forall k :: 0 <= k < |b.w.relays| ==> b'.w.relays[k] == b.w.relays[k] && b'.v.bodies[k] == b.v.bodies[k];
    } else {
      SelfSource(b, be, b'.w.relays[be.e.relay]);
      TouchesOnly(b, be);
    }
  }

  lemma {:induction false} ExecSources(b: BWorld, run: seq<BEvent>)
    requires BInv(b) && SourcesOk(b) && BLegal(b, run)
    ensures BExec(b, run).w.sh.crashed || SourcesOk(BExec(b, run))
    decreases |run|
  {
    if run != [] {
      var b1 := BNext(b, run[0]);
      if b1.w.sh.crashed {
        assert run[1..] == [];
      } else {
        BStepInv(b, run[0]);
        StepSources(b, run[0]);
        ExecSources(b1, run[1..]);
      }
    }
  }

  lemma InitialSources(b0: BWorld)
    requires BInitial(b0)
    ensures SourcesOk(b0)
  {
  }

  lemma RunSources(b0: BWorld, run: seq<BEvent>)
    requires BInitial(b0) && BLegal(b0, run)
    ensures BExec(b0, run).w.sh.crashed || SourcesOk(BExec(b0, run))
  {
    InitialBInv(b0);
    InitialSources(b0);
    ExecSources(b0, run);
  }

  lemma ReachableSources(b: BWorld)
    requires BReachable(b)
    ensures SourcesOk(b)
  {
    var b0, run :| BInitial(b0) && BLegal(b0, run) && BExec(b0, run) == b;
    RunSources(b0, run);
  }

  lemma SourceAt(b: BWorld, be: BEvent)
    requires BInv(b) && SourcesOk(b) && BEnabled(b, be) && ForwardsReply(b.w, be.e)
    ensures var body := BodyAt(b, be);
            && (body.Chunks? ==> body.decoder == CM.Decoder(0, false))
            && (body.UntilClose? ==> !OpOf(b.w, be.e).value.keepAlive)
  {
    var r := b.w.relays[be.e.relay];
    assert LocalOk(r) && SourceOk(r, b.v.bodies[be.e.relay]);
    OnlyOne(r, be.e.index);
  }

  /** A response delimited by the close of the connection never returns its stream to the pool. */
  lemma CloseDelimitedNeverPooled(b: BWorld, be: BEvent)
    requires BReachable(b) && BEnabled(b, be) && ForwardsReply(b.w, be.e) && BodyAt(b, be).UntilClose?
    ensures IdleSlots(BNext(b, be).w.sh.pool.entries, b.w.relays[be.e.relay].peer.backend.id) == 0
  {
    BReachableInv(b);
    ReachableSources(b);
    SourceAt(b, be);
    ForwardSlots(b.w, be.e);
  }

  /** Behind a whole response, a stream is pooled with bytes on it exactly when the client stops
      accepting writes too early for it: at any of them for a chunked response, before the last
      for a sized one, at none for one that was captured with its head. */
  lemma PooledUnreadAfterWhole(b: BWorld, be: BEvent)
    requires BReachable(b) && BEnabled(b, be) && ForwardsReply(b.w, be.e)
    requires WillEnd(BodyAt(b, be), NetOf(b, be.e))
    ensures var s, b' := b.w.relays[be.e.relay].peer.backend.id, BNext(b, be);
            && s in b'.v.nets
            && ((IdleSlots(b'.w.sh.pool.entries, s) == 1 && b'.v.nets[s].rest != []) <==>
                (Returns(b.w, be.e) && !Drained(BodyAt(b, be), NetOf(b, be.e), be.c.quota)))
  {
    PooledUnreadIff(b, be);
    BReachableInv(b);
    ReachableSources(b);
    SourceAt(b, be);
    var body, net := BodyAt(b, be), NetOf(b, be.e);
    LeftoverIs(body, net, be.c.quota);
    if Returns(b.w, be.e) { LeftoverIff(body, net, be.c.quota); }
  }
}
