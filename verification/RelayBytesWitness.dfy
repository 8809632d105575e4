/** Runs in which a backend stream is returned to the pool with unread bytes on it. */
module RelayBytesWitness {
  import opened Common
  import opened Network
  import opened RelayModel
  import opened RelayInvariant
  import opened RelaySafety
  import opened RelayRest
  import opened RelayBytes
  import opened RelayBytesProofs
  import opened RelayBytesTheorems
  import RW = RelayWitness
  import H1Head
  import H1Body
  import H1Witness
  import opened H1Ends
  import CM = ChunkedModel
  import CP = ChunkedProofs
  import BP = H1BodyProofs
  import HP = H1HeadProofs

  lemma {:induction false} Extend(b: BWorld, run: seq<BEvent>, be: BEvent)
    requires BLegal(b, run) && BEnabled(BExec(b, run), be)
    ensures BLegal(b, run + [be]) && BExec(b, run + [be]) == BNext(BExec(b, run), be)
    decreases |run|
  {
    if run == [] {
      assert (run + [be])[1..] == [];
    } else {
      assert (run + [be])[1..] == run[1..] + [be];
      Extend(BNext(b, run[0]), run[1..], be);
    }
  }

  lemma {:induction false} ExtendOrderly(b: BWorld, run: seq<BEvent>, be: BEvent)
    requires BLegal(b, run) && OrderlyRun(b, run) && BEnabled(BExec(b, run), be) && Orderly(BExec(b, run), be)
    ensures BLegal(b, run + [be]) && OrderlyRun(b, run + [be])
    decreases |run|
  {
    Extend(b, run, be);
    if run == [] {
      assert (run + [be])[1..] == [];
    } else {
      assert (run + [be])[1..] == run[1..] + [be];
      ExtendOrderly(BNext(b, run[0]), run[1..], be);
    }
  }

  /** `b` is reached by an orderly run. */
  ghost predicate InOrder(b: BWorld) {
    && !b.w.sh.crashed
    && exists b0, run :: BInitial(b0) && BLegal(b0, run) && OrderlyRun(b0, run) && BExec(b0, run) == b
  }

  lemma InOrderReached(b: BWorld)
    requires InOrder(b)
    ensures BReachable(b)
  {
    var b0, run :| BInitial(b0) && BLegal(b0, run) && OrderlyRun(b0, run) && BExec(b0, run) == b;
  }

  lemma StepInOrder(b: BWorld, be: BEvent)
    requires InOrder(b) && BEnabled(b, be) && Orderly(b, be) && !BNext(b, be).w.sh.crashed
    ensures InOrder(BNext(b, be))
  {
    var b0, run :| BInitial(b0) && BLegal(b0, run) && OrderlyRun(b0, run) && BExec(b0, run) == b;
    Extend(b0, run, be);
    ExtendOrderly(b0, run, be);
  }

  lemma StepReached(b: BWorld, be: BEvent)
    requires BReachable(b) && BEnabled(b, be) && !BNext(b, be).w.sh.crashed
    ensures BReachable(BNext(b, be))
  {
    var b0, run :| BInitial(b0) && BLegal(b0, run) && BExec(b0, run) == b;
    Extend(b0, run, be);
  }

  // ---- up to the response -----------------------------------------------------

  /** One relay waits on `op`; it holds no stream, or the one TCP stream there is. */
  predicate At(b: BWorld, op: Op) {
    RW.Waits(b.w, op) && |b.v.bodies| == 1 && !b.w.sh.crashed
  }

  predicate Holding(b: BWorld) {
    && |b.w.relays| == 1 && b.w.relays[0].peer == Peer(Stream(0), RW.SERVER, false) && 0 in b.v.nets
    && !b.w.relays[0].ex.upgrade
  }

  function Plain(cut: nat -> nat): Choice {
    Choice(cut, [], EofError, 0)
  }

  lemma AtParse(cut: nat -> nat) returns (b: BWorld)
    ensures InOrder(b) && At(b, ParseRequest) && b.v.nets == map[] && b.w.sh.streams.next == 0
    ensures b.w.relays[0].peer.backend.Null?
  {
    var b0 := BWorld(RW.Fresh(), Wires(map[], []));
    var be := BEvent(Accept(true), Plain(cut));
    assert BInitial(b0) && BLegal(b0, []) && OrderlyRun(b0, []) && BExec(b0, []) == b0;
    assert InOrder(b0);
    assert Wired(b0) && Enabled(b0.w, be.e) && BEnabled(b0, be);
    StepInOrder(b0, be);
    b := BNext(b0, be);
    assert b.w.relays[0] == Started(true);
  }

  lemma ParsedStep(r: Relay, sh: Shared)
    requires r.ctl.pending == Cons(ParseRequest, Nil) && sh.pool.entries == [Entry(RW.SERVER, [])]
    ensures var st := OnParsed(Drop(r, 0), sh, RW.GET);
            && st.r.ctl.pending == Cons(Connect(ForRequest(false), RW.SERVER), Nil)
            && st.r.ctl.done == r.ctl.done && st.r.peer == r.peer && !st.r.ex.isHead && !st.r.ex.upgrade
            && st.sh.pool.entries == sh.pool.entries && st.sh.streams == sh.streams && st.sh.crashed == sh.crashed
  {
    var r1, sh1 := BeginExchange(Drop(r, 0), RW.GET), CountRequest(sh);
    assert Candidates(sh1.pool.entries, "app", 1) == [];
    assert Candidates(sh1.pool.entries, "app") == [0];
    assert Chosen(sh1.pool, "app") == 0;
    assert PoolConnect(r1, sh1, "app", false).r == Issue(r1, Connect(ForRequest(false), RW.SERVER));
  }

  lemma AtConnect(cut: nat -> nat) returns (b: BWorld)
    ensures InOrder(b) && At(b, Connect(ForRequest(false), RW.SERVER)) && b.w.sh.streams.next == 0
    ensures b.w.relays[0].peer.backend.Null? && !b.w.relays[0].ex.upgrade
  {
    var a := AtParse(cut);
    var be := BEvent(Complete(0, 0, Outcome.Parsed(RW.GET)), Plain(cut));
    InOrderReached(a);
    AlwaysWired(a);
    assert Enabled(a.w, be.e) && BEnabled(a, be);
    ParsedStep(a.w.relays[0], a.w.sh);
    b := BNext(a, be);
    assert b.w.relays[0] == OnParsed(Drop(a.w.relays[0], 0), a.w.sh, RW.GET).r;
    StepInOrder(a, be);
  }

  lemma ConnectedStep(r: Relay, sh: Shared)
    requires r.ctl.pending == Cons(Connect(ForRequest(false), RW.SERVER), Nil)
    ensures var st := OnConnected(Drop(r, 0), sh, ForRequest(false), RW.SERVER, false);
            && st.r.ctl.pending == Cons(WriteRequest(true), Nil) && st.r.ctl.done == r.ctl.done
            && st.r.peer == Peer(Stream(sh.streams.next), RW.SERVER, false)
            && st.r.ex.isHead == r.ex.isHead && st.r.ex.upgrade == r.ex.upgrade
            && st.sh.pool == sh.pool && st.sh.crashed == sh.crashed
  {
  }

  lemma AtWrite(cut: nat -> nat) returns (b: BWorld)
    ensures InOrder(b) && At(b, WriteRequest(true)) && Holding(b)
    ensures b.v.nets[0] == Net([], 0, cut, EofError)
  {
    var a := AtConnect(cut);
    var be := BEvent(Complete(0, 0, Connected(false)), Plain(cut));
    InOrderReached(a);
    AlwaysWired(a);
    assert Enabled(a.w, be.e) && BEnabled(a, be);
    ConnectedStep(a.w.relays[0], a.w.sh);
    b := BNext(a, be);
    StepInOrder(a, be);
  }

  lemma WrittenStep(r: Relay, sh: Shared)
    requires r.ctl.pending == Cons(WriteRequest(true), Nil) && r.peer.backend.Stream?
    ensures var st := OnRequestWritten(Drop(r, 0), sh, true, true);
            && st.r.ctl.pending == Cons(ParseResponse, Nil) && st.r.ctl.done == r.ctl.done && st.r.peer == r.peer
            && st.r.ex.isHead == r.ex.isHead && st.r.ex.upgrade == r.ex.upgrade && st.sh == sh
  {
  }

  lemma AtReply(cut: nat -> nat) returns (b: BWorld)
    ensures InOrder(b) && At(b, ParseResponse) && Holding(b)
    ensures b.v.nets[0] == Net([], 0, cut, EofError)
  {
    var a := AtWrite(cut);
    var be := BEvent(Complete(0, 0, Ok), Plain(cut));
    InOrderReached(a);
    AlwaysWired(a);
    assert Enabled(a.w, be.e) && BEnabled(a, be);
    WrittenStep(a.w.relays[0], a.w.sh);
    b := BNext(a, be);
    StepInOrder(a, be);
  }

  // ---- the response -----------------------------------------------------------

  lemma ReplyStep(r: Relay, sh: Shared)
    requires r.ctl.pending == Cons(ParseResponse, Nil) && !r.ex.upgrade && !r.ex.isHead
    ensures var st := OnResponse(Drop(r, 0), sh, Answered(200, true, true));
            && st.r.ctl.pending == Cons(WriteResponse(true, true), Nil) && st.r.ctl.done == r.ctl.done
            && st.r.peer == r.peer && !st.r.ex.isHead && !st.r.ex.upgrade
            && st.sh.pool == sh.pool && st.sh.crashed == sh.crashed
  {
  }

  /** Event `be` is the relay reading its response, for which the backend has sent just `sent`. */
  ghost predicate Serves(a: BWorld, be: BEvent, sent: Bytes, b: BWorld) {
    && InOrder(a) && At(a, ParseResponse) && Holding(a) && a.v.nets[0].rest == []
    && BEnabled(a, be) && ReadsReply(a.w, be.e) && be.c.sent == sent && b == BNext(a, be)
  }

  /** The relay forwards a response with a body that keeps its connection. */
  lemma AtForward(cut: nat -> nat, sent: Bytes) returns (a: BWorld, be: BEvent, b: BWorld)
    requires var m := H1Body.ReadResponse(Net(sent, 0, cut, EofError));
             m.Replied? && m.head.status == 200 && m.keepAlive && !m.body.NoBody?
    ensures Serves(a, be, sent, b) && Receiving(NetOf(a, be.e), be.c) == Net(sent, 0, cut, EofError)
    ensures BReachable(b) && At(b, WriteResponse(true, true)) && Holding(b)
    ensures var m := H1Body.ReadResponse(Net(sent, 0, cut, EofError));
            m.Replied? && b.v.nets[0] == m.net && b.v.bodies[0] == m.body
  {
    a := AtReply(cut);
    InOrderReached(a);
    AlwaysWired(a);
    be := Reply(a, cut, sent);
    ReplyStep(a.w.relays[0], a.w.sh);
    b := BNext(a, be);
    StepReached(a, be);
  }

  lemma Reply(a: BWorld, cut: nat -> nat, sent: Bytes) returns (be: BEvent)
    requires At(a, ParseResponse) && Holding(a) && Wired(a) && a.v.nets[0] == Net([], 0, cut, EofError)
    requires var m := H1Body.ReadResponse(Net(sent, 0, cut, EofError));
             m.Replied? && m.head.status == 200 && m.keepAlive && !m.body.NoBody?
    ensures be.e == Complete(0, 0, Answered(200, true, true)) && be.c.sent == sent
    ensures BEnabled(a, be) && ReadsReply(a.w, be.e)
    ensures Receiving(NetOf(a, be.e), be.c) == Net(sent, 0, cut, EofError)
  {
    be := BEvent(Complete(0, 0, Answered(200, true, true)), Choice(cut, sent, EofError, 0));
    assert Receiving(a.v.nets[0], be.c) == Net(sent, 0, cut, EofError) by {
      assert [] + sent == sent;
    }
    assert Enabled(a.w, be.e) && ReadsReply(a.w, be.e);
  }

  lemma FreeSlot(b: BWorld)
    requires At(b, WriteResponse(true, true)) && Holding(b)
    ensures Slot(b.w.sh.pool, RW.SERVER) == 0 < |b.w.sh.pool.entries|
  {
    assert FindServer(b.w.sh.pool.entries, RW.SERVER) == 0;
  }

  /** The write completes as the codec says, and what it leaves stays on the pooled stream. */
  lemma PooledWith(b: BWorld, quota: nat) returns (be: BEvent)
    requires BReachable(b) && At(b, WriteResponse(true, true)) && Holding(b)
    ensures BEnabled(b, be) && be.e.Complete?
    ensures be.e.outcome == if Arrives(b.v.bodies[0], b.v.nets[0], quota) then Ok else Failed
    ensures var b' := BNext(b, be);
            && IdleSlots(b'.w.sh.pool.entries, 0) == 1 && 0 in b'.v.nets
            && b'.v.nets[0] == Leftover(b.v.bodies[0], b.v.nets[0], quota)
  {
    var ok := Arrives(b.v.bodies[0], b.v.nets[0], quota);
    be := BEvent(Complete(0, 0, if ok then Ok else Failed), Choice(t => 0, [], EofError, quota));
    AlwaysWired(b);
    assert Enabled(b.w, be.e) && ForwardsReply(b.w, be.e) && BEnabled(b, be);
    FreeSlot(b);
    BReachableInv(b);
    ForwardSlots(b.w, be.e);
  }

  /** The stream is in the pool with `left` on it. */
  ghost predicate PooledLeaving(b: BWorld, left: Bytes) {
    IdleSlots(b.w.sh.pool.entries, 0) == 1 && 0 in b.v.nets && b.v.nets[0].rest == left
  }

  const CHUNKED_SENT := H1Head.PrintResponse(H1Witness.CHUNKED_OK) + CP.Encode(H1Witness.TRAP)

  /** The backend sends one chunked response, whose size line is read along with its head.  The transfer of
      the rest is reported a success, and the connection goes back to the pool with the end of that
      response on it. */
  lemma OverReadIsPooled() returns (a: BWorld, read: BEvent, b: BWorld, write: BEvent)
    ensures Serves(a, read, CHUNKED_SENT, b) && b.v.bodies[0] == H1Body.Chunks(CM.Decoder(0, false))
    ensures BReachable(b) && BEnabled(b, write) && write.e.Complete? && write.e.outcome.Ok?
    ensures PooledLeaving(BNext(b, write), H1Witness.BEHIND)
    ensures CP.Encode(H1Witness.TRAP) == [53, 13, 10] + (CP.Encode(H1Witness.NOTHING_LEFT) + H1Witness.BEHIND)
  {
    H1Witness.TrapBytes();
    H1Witness.OverReadChunked(Net(CHUNKED_SENT, 0, H1Witness.TrapCut, EofError), 0);
    FreshSource(Net(CHUNKED_SENT, 0, H1Witness.TrapCut, EofError));
    a, read, b := AtForward(H1Witness.TrapCut, CHUNKED_SENT);
    write := PooledWith(b, 1);
  }

  const SIZED_SENT := H1Head.PrintResponse(H1Witness.SIZED_OK) + [1, 2]

  lemma SizedUnread(body: H1Body.Body, net: Net)
    requires body == H1Body.Length(2) && net.rest == [1, 2] && net.tick == 1 && net.cut == H1Witness.SizedCut
    ensures !Arrives(body, net, 1) && Leftover(body, net, 1).rest == [2]
  {
    H1Witness.SizedStops(net);
  }

  /** The relay is about to forward the two bytes of a sized response. */
  lemma AtSized() returns (a: BWorld, read: BEvent, b: BWorld)
    ensures Serves(a, read, SIZED_SENT, b)
    ensures Receiving(NetOf(a, read.e), read.c) == Net(SIZED_SENT, 0, H1Witness.SizedCut, EofError)
    ensures BReachable(b) && At(b, WriteResponse(true, true)) && Holding(b)
    ensures b.v.bodies[0] == H1Body.Length(2)
    ensures b.v.nets[0].rest == [1, 2] && b.v.nets[0].tick == 1 && b.v.nets[0].cut == H1Witness.SizedCut
  {
    H1Witness.SizedRead(Net(SIZED_SENT, 0, H1Witness.SizedCut, EofError));
    a, read, b := AtForward(H1Witness.SizedCut, SIZED_SENT);
  }

  /** The backend sends one sized response, of two bytes.  The transfer fails at the first, and the
      connection goes back to the pool with the second on it. */
  lemma FailedWriteIsPooled() returns (a: BWorld, read: BEvent, b: BWorld, write: BEvent)
    ensures Serves(a, read, SIZED_SENT, b) && b.v.bodies[0] == H1Body.Length(2)
    ensures BReachable(b) && BEnabled(b, write) && write.e.Complete? && write.e.outcome.Failed?
    ensures PooledLeaving(BNext(b, write), [2])
  {
    a, read, b := AtSized();
    SizedUnread(b.v.bodies[0], b.v.nets[0]);
    write := PooledWith(b, 1);
  }

  // ---- an orderly run ---------------------------------------------------------

  lemma SizedIsOneResponse(net: Net)
    requires net.rest == SIZED_SENT
    ensures OneResponse(net, false)
  {
    H1Witness.SizedOkPrintable();
    H1Witness.SizedOkReceived();
    var f := BP.Sized([1, 2]);
    assert BP.FramedAs(HP.ReceivedResponse(H1Witness.SIZED_OK), Method(false), f);
    assert net.rest == H1Head.PrintResponse(H1Witness.SIZED_OK) + BP.WireOf(f);
  }

  lemma SizedArrives(body: H1Body.Body, net: Net)
    requires body == H1Body.Length(2) && net.rest == [1, 2]
    ensures Arrives(body, net, 3) && Leftover(body, net, 3).rest == []
  {
    TurnsBound(body, net);
    ArrivesIff(body, net, 3);
    LeftoverIs(body, net, 3);
  }

  /** Orderly runs that pool a stream exist. */
  lemma OrderlyPools() returns (b0: BWorld, run: seq<BEvent>)
    ensures BInitial(b0) && BLegal(b0, run) && OrderlyRun(b0, run) && !BExec(b0, run).w.sh.crashed
    ensures PooledLeaving(BExec(b0, run), [])
  {
    var b := SizedInOrder();
    SizedArrives(b.v.bodies[0], b.v.nets[0]);
    InOrderReached(b);
    var be := PooledWith(b, 3);
    StepInOrder(b, be);
    b0, run :| BInitial(b0) && BLegal(b0, run) && OrderlyRun(b0, run) && BExec(b0, run) == BNext(b, be);
  }

  lemma SizedInOrder() returns (b: BWorld)
    ensures InOrder(b) && At(b, WriteResponse(true, true)) && Holding(b)
    ensures b.v.bodies[0] == H1Body.Length(2) && b.v.nets[0].rest == [1, 2]
  {
    var a, read;
    a, read, b := AtSized();
    assert Receiving(NetOf(a, read.e).(rest := []), read.c) == Receiving(NetOf(a, read.e), read.c);
    SizedIsOneResponse(Receiving(NetOf(a, read.e), read.c));
    assert Orderly(a, read);
    StepInOrder(a, read);
  }
}
