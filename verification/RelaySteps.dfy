/** Every callback of a relay keeps the invariant: for each, what it does to the relay and to the shared state. */
module RelaySteps {
  import opened Common
  import opened RelayModel
  import opened RelayInvariant

  lemma TeardownChain(r: Relay, sh: Shared, op: Op)
    requires Chained(r, op)
    ensures Chained(Teardown(r, sh).r, op)
  {
    var st := Teardown(r, sh);
    assert Chained(st.r, op);
  }

  lemma TeardownBridge(r: Relay, sh: Shared)
    requires Bridged(r)
    ensures Bridged(Teardown(r, sh).r)
  {
    var st := Teardown(r, sh);
    assert Bridged(st.r);
  }

  /** Teardown called by the completion of the only pending operation. */
  lemma TeardownLast(r: Relay, sh: Shared, op: Op)
    requires Chained(r, op)
    ensures Bridged(Teardown(Drop(r, 0), sh).r)
  {
    var st := Teardown(Drop(r, 0), sh);
    assert Bridged(st.r);
  }

  // ---- going on to the next operation -----------------------------------------

  /** The control state between a completed operation and the next one, `op`. */
  predicate Before(c: Control, op: Op) {
    && c.pending.Nil?
    && (c.fin == SentEarly ==> c.draining)
    && (if c.done then
          c.phase != Request && c.tornWith.Cons? && c.tornWith.rest.Nil? && Rank(c.tornWith.op) < Rank(op)
        else c.fin != Sent && PhaseFits(c.phase, op))
  }

  /** Issuing `op` from there is one link of the chain. */
  lemma IssueChain(r: Relay, op: Op)
    requires Before(r.ctl, op) && !IsPump(op) && !op.DrainRead?
    requires PeerAt(r, op)
    requires ExchangeAt(r.ex, r.peer, op)
    requires Quiet(r.up) && Quiet(r.down)
    ensures Chained(Issue(r, op), op)
  {
  }

  /** A completed operation leaves the control state before any later one. */
  lemma DropBefore(r: Relay, op: Op, op': Op)
    requires Chained(r, op) && Rank(op) < Rank(op')
    requires r.ctl.fin == Sent ==> r.ctl.done
    requires !r.ctl.done ==> PhaseFits(r.ctl.phase, op')
    ensures Before(Drop(r, 0).ctl, op')
  {
  }

  lemma SendChain(r: Relay, sh: Shared, retryAllowed: bool)
    requires Before(r.ctl, WriteRequest(retryAllowed))
    requires r.peer.backend.Stream? && r.ex.head && Quiet(r.up) && Quiet(r.down)
    requires if retryAllowed then r.ex.attempts.NoAttempt?
             else RetryPending(r.ex.attempts) && !r.peer.fromPool && !r.ex.body
                  && r.ex.attempts.last.stream < r.peer.backend.id
    ensures var st := SendBackendRequest(r, sh, retryAllowed); Chained(st.r, WriteRequest(retryAllowed)) && st.sh == sh
  {
    var a := Attempt(r.peer.backend.id, r.peer.fromPool, r.ex.body, false);
    IssueChain(r.(ex := r.ex.(attempts := Tried(a, r.ex.attempts))), WriteRequest(retryAllowed));
  }

  /** Waiting on one operation of an exchange. */
  predicate Goes(r: Relay) {
    r.ctl.pending.Cons? && Chained(r, r.ctl.pending.op)
  }

  // ---- request parsed ---------------------------------------------------------

  /** The relay as the request-parse callback finds it, after reading the request. */
  predicate Fresh(r: Relay) {
    && Before(r.ctl, Connect(ForTunnel, r.peer.endpoint))
    && r.peer.backend.Null? && r.ex.attempts.NoAttempt? && Quiet(r.up) && Quiet(r.down)
  }

  lemma ErrorChain(r: Relay, sh: Shared)
    requires Before(r.ctl, WriteError) && r.peer.backend.Null? && AttemptsOk(r.ex.attempts)
    requires Quiet(r.up) && Quiet(r.down)
    ensures var st := ReportError(r, sh); Chained(st.r, WriteError) && st.sh.crashed == sh.crashed
  {
    IssueChain(Decide(r), WriteError);
  }

  lemma UseBackendChain(r: Relay, sh: Shared, s: StreamId, ep: Endpoint, fromPool: bool, hasBody: bool)
    requires Fresh(r)
    ensures var st := UseBackend(r, sh, s, ep, fromPool, hasBody);
            Chained(st.r, WriteRequest(true)) && st.sh.crashed == sh.crashed
  {
    var r1 := r.(peer := Peer(Stream(s), ep, fromPool), ex := r.ex.(head := true, body := hasBody));
    SendChain(r1, if fromPool then sh else sh.(stats := CountConnect(sh.stats)), true);
  }

  lemma PoolConnectChain(r: Relay, sh: Shared, id: string, hasBody: bool)
    requires Fresh(r)
    ensures var st := PoolConnect(r, sh, id, hasBody); Goes(st.r) && st.sh.crashed == sh.crashed
  {
    var k := Chosen(sh.pool, id);
    if k == |sh.pool.entries| {
      ErrorChain(r, sh);
    } else {
      var e := sh.pool.entries[k];
      if e.be.proto == Tcp && e.idle != [] {
        UseBackendChain(r, sh.(pool := Turn(Dequeue(sh.pool, k))), e.idle[0], e.be, true, hasBody);
      } else {
        IssueChain(r, Connect(ForRequest(hasBody), e.be));
      }
    }
  }

  lemma DispatchChain(r: Relay, sh: Shared, req: Req)
    requires Fresh(r)
    ensures var st := Dispatch(r, sh, req); Goes(st.r) && st.sh.crashed == sh.crashed
  {
    match req.target {
      case Tunnel(None) => ErrorChain(r, sh);
      case Tunnel(Some(ep)) => IssueChain(r, Connect(ForTunnel, ep));
      case Absolute(None) => ErrorChain(r, sh);
      case Absolute(Some(ep)) => IssueChain(r, Connect(ForRequest(req.hasBody), ep));
      case Routed(id) => if id == "" { ErrorChain(r, sh); } else { PoolConnectChain(r, sh, id, req.hasBody); }
    }
  }

  lemma ParsedChain(r: Relay, sh: Shared, req: Req)
    requires Chained(r, ParseRequest)
    ensures var st := OnParsed(Drop(r, 0), sh, req); Goes(st.r) && st.sh.crashed == sh.crashed
  {
    var r0 := Drop(r, 0);
    assert Fresh(BeginExchange(r0, req));
    DispatchChain(BeginExchange(r0, req), CountRequest(sh), req);
  }

  // ---- backend connected ------------------------------------------------------

  lemma ConnectFailedChain(r: Relay, sh: Shared, use: ConnectUse, ep: Endpoint)
    requires Chained(r, Connect(use, ep))
    ensures var st := ReportError(Drop(r, 0), sh); Goes(st.r) && st.sh.crashed == sh.crashed
  {
    DropBefore(r, Connect(use, ep), WriteError);
    ErrorChain(Drop(r, 0), sh);
  }

  lemma ConnectedChain(r: Relay, sh: Shared, use: ConnectUse, ep: Endpoint, fromPool: bool)
    requires Chained(r, Connect(use, ep)) && Linked(r, sh.streams)
    ensures var st := OnConnected(Drop(r, 0), sh, use, ep, fromPool); Goes(st.r) && st.sh.crashed == sh.crashed
  {
    var r0 := Drop(r, 0);
    var s := sh.streams.next;
    var sh1 := sh.(streams := Create(sh.streams, ep));
    match use {
      case ForRequest(hasBody) =>
        var sh2 := if fromPool then sh1.(stats := sh.stats.(quicReused := sh.stats.quicReused + 1)) else sh1;
        ConnectedForRequest(r0, sh2, s, ep, fromPool, hasBody, r);
      case ForTunnel =>
        DropBefore(r, Connect(use, ep), WriteTunnelOk);
        IssueChain(r0.(peer := r0.peer.(backend := Stream(s), endpoint := ep), ex := r0.ex.(tunnel := true)),
                   WriteTunnelOk);
      case ForRetry =>
        DropBefore(r, Connect(use, ep), WriteRequest(false));
        SendChain(r0.(peer := Peer(Stream(s), ep, false)), sh1.(stats := CountConnect(sh.stats)), false);
    }
  }

  lemma ConnectedForRequest(r0: Relay, sh: Shared, s: StreamId, ep: Endpoint, fromPool: bool, hasBody: bool, r: Relay)
    requires Chained(r, Connect(ForRequest(hasBody), ep)) && r0 == Drop(r, 0)
    ensures var st := UseBackend(r0, sh, s, ep, fromPool, hasBody); Goes(st.r) && st.sh.crashed == sh.crashed
  {
    DropBefore(r, Connect(ForRequest(hasBody), ep), WriteRequest(true));
    var r1 := r0.(peer := Peer(Stream(s), ep, fromPool), ex := r0.ex.(head := true, body := hasBody));
    SendChain(r1, if fromPool then sh else sh.(stats := CountConnect(sh.stats)), true);
  }

  // ---- request written --------------------------------------------------------

  /** The null dereference happens exactly when teardown ran during this very write. */
  lemma RequestWrittenChain(r: Relay, sh: Shared, retryAllowed: bool)
    requires Chained(r, WriteRequest(retryAllowed)) && !sh.crashed
    ensures var st := OnRequestWritten(Drop(r, 0), sh, retryAllowed, true);
            if Lost(r.ctl, WriteRequest(retryAllowed)) then st.sh.crashed else Goes(st.r) && !st.sh.crashed
  {
    var r0 := Drop(r, 0);
    var r1 := r0.(ex := r0.ex.(head := false, body := false), ctl := r0.ctl.(phase := Response));
    if !Lost(r.ctl, WriteRequest(retryAllowed)) {
      assert Before(r1.ctl, ParseResponse);
      IssueChain(r1, ParseResponse);
    }
  }

  lemma CloseKeepsRest(r: Relay, sh: Shared)
    ensures var st := CloseBackend(r, sh);
            && st.r == r.(peer := r.peer.(backend := Null))
            && st.sh.crashed == sh.crashed && st.sh.pool == sh.pool && st.sh.stats == sh.stats
  {
  }

  lemma RequestFailedChain(r: Relay, sh: Shared, retryAllowed: bool)
    requires Chained(r, WriteRequest(retryAllowed))
    ensures var st := OnRequestWritten(Drop(r, 0), sh, retryAllowed, false); Goes(st.r) && st.sh.crashed == sh.crashed
  {
    var r0 := Drop(r, 0);
    var r1 := r0.(ex := r0.ex.(attempts := MarkFailed(r0.ex.attempts)));
    var st := CloseBackend(r1, sh);
    CloseKeepsRest(r1, sh);
    if retryAllowed && r0.peer.fromPool && !r0.ex.body {
      DropBefore(r, WriteRequest(retryAllowed), Connect(ForRetry, r0.peer.endpoint));
      IssueChain(st.r, Connect(ForRetry, r0.peer.endpoint));
    } else {
      DropBefore(r, WriteRequest(retryAllowed), WriteError);
      ErrorChain(st.r, st.sh);
    }
  }

  // ---- response ---------------------------------------------------------------

  lemma ResponseFailedChain(r: Relay, sh: Shared)
    requires Chained(r, ParseResponse)
    ensures var st := OnResponse(Drop(r, 0), sh, Failed); Goes(st.r) && st.sh.crashed == sh.crashed
  {
    var r0 := Drop(r, 0);
    var st := CloseBackend(r0, sh);
    CloseKeepsRest(r0, sh);
    DropBefore(r, ParseResponse, WriteError);
    ErrorChain(st.r, st.sh);
  }

  /** The write that follows a response. */
  function Reply(r: Relay, o: Outcome): Op
    requires o.Answered?
  {
    if r.ex.upgrade && o.status == 101 then WriteUpgrade else WriteResponse(o.keepAlive, o.hasBody && !r.ex.isHead)
  }

  lemma ReplyChain(r: Relay, op: Op)
    requires Chained(r, ParseResponse) && (op.WriteUpgrade? || op.WriteResponse?)
    ensures Chained(Issue(Decide(Drop(r, 0)), op), op)
  {
    DropBefore(r, ParseResponse, op);
    IssueChain(Decide(Drop(r, 0)), op);
  }

  lemma ResponseChain(r: Relay, sh: Shared, o: Outcome)
    requires Chained(r, ParseResponse) && (o.Answered? || o.Failed?)
    ensures var st := OnResponse(Drop(r, 0), sh, o); Goes(st.r) && st.sh.crashed == sh.crashed
  {
    if o.Failed? {
      ResponseFailedChain(r, sh);
    } else {
      ReplyChain(r, Reply(Drop(r, 0), o));
    }
  }

  // ---- response written -------------------------------------------------------

  lemma AfterResponse(r: Relay, op: Op)
    requires Chained(r, op) && (op.WriteResponse? || op.WriteError?)
    ensures var c := Drop(r, 0).ctl;
            var c' := AfterClientResponse(c, r.ex.keepAlive, r.h1);
            && c'.done == c.done && (c.draining ==> c'.draining)
            && (c.done ==> c' == c)
            && (!c.done ==> ControlAt(c', ParseRequest) || (ControlAt(c', DrainRead) && Finished(r.h1, c')))
            && (!c.done && c'.pending.op.ParseRequest? ==> !c.draining)
  {
  }

  /** After teardown the response callback issues nothing; before it, a read of the client. */
  predicate Settles(r: Relay) {
    if r.ctl.done then Bridged(r) else Goes(r)
  }

  lemma SettleChain(r: Relay, c: Control)
    requires r.peer.backend.Null? && AttemptsOk(r.ex.attempts) && Quiet(r.up) && Quiet(r.down)
    requires r.ctl == c
    requires if c.done then c.pending.Nil? && c.phase != Request && (c.fin == SentEarly ==> c.draining)
             else ControlAt(c, ParseRequest) || (ControlAt(c, DrainRead) && Finished(r.h1, c))
    ensures Settles(r)
  {
  }

  lemma FinishKeepsRest(r: Relay, sh: Shared, keepAlive: bool)
    ensures var st := FinishBackend(r, sh, keepAlive);
            && st.r == r.(ex := r.ex.(head := false, body := false), peer := r.peer.(backend := Null))
            && st.sh.crashed == sh.crashed && st.sh.stats == sh.stats
  {
  }

  /** The relay after a response has been written. */
  function Settled(r: Relay): Relay {
    r.(ctl := AfterClientResponse(r.ctl, r.ex.keepAlive, r.h1), ex := r.ex.(head := false, body := false),
       peer := r.peer.(backend := Null))
  }

  lemma ResponseWrittenResult(r: Relay, sh: Shared, keepAlive: bool)
    ensures var st := OnResponseWritten(r, sh, keepAlive);
            st.r == Settled(r) && st.sh.crashed == sh.crashed && st.sh.stats == sh.stats
  {
    FinishKeepsRest(r, sh, keepAlive);
  }

  lemma ResponseWrittenChain(r: Relay, sh: Shared, keepAlive: bool, hasBody: bool)
    requires Chained(r, WriteResponse(keepAlive, hasBody))
    ensures var st := OnResponseWritten(Drop(r, 0), sh, keepAlive);
            Settles(st.r) && st.sh.crashed == sh.crashed
  {
    var r0 := Drop(r, 0);
    AfterResponse(r, WriteResponse(keepAlive, hasBody));
    ResponseWrittenResult(r0, sh, keepAlive);
    SettleChain(Settled(r0), Settled(r0).ctl);
  }

  lemma ErrorWrittenChain(r: Relay)
    requires Chained(r, WriteError)
    ensures var r0 := Drop(r, 0); Settles(r0.(ctl := AfterClientResponse(r0.ctl, r0.ex.keepAlive, r0.h1)))
  {
    var r0 := Drop(r, 0);
    AfterResponse(r, WriteError);
    var c := AfterClientResponse(r0.ctl, r0.ex.keepAlive, r0.h1);
    SettleChain(r0.(ctl := c), c);
  }

  // ---- draining ---------------------------------------------------------------

  lemma DrainChain(r: Relay, sh: Shared, o: Outcome)
    requires Chained(r, DrainRead) && (o.Data? || o.Failed?)
    ensures var st := OnDrainRead(Drop(r, 0), sh, o); Settles(st.r) && st.sh.crashed == sh.crashed
  {
    var r0 := Drop(r, 0);
    if !r0.ctl.done && (o.Failed? || o.bytes == []) {
      TeardownLast(r, sh, DrainRead);
    } else {
      SettleChain(r0.(ctl := DrainClient(r0.ctl)), DrainClient(r0.ctl));
    }
  }

  lemma GracefulChain(r: Relay, op: Op)
    requires Chained(r, op)
    ensures Chained(r.(ctl := GracefulClose(r.ctl)), op)
  {
  }

  lemma GracefulBridge(r: Relay)
    requires Bridged(r)
    ensures Bridged(r.(ctl := GracefulClose(r.ctl)))
  {
  }

  // ---- the byte bridge --------------------------------------------------------

  lemma BridgeStarts(r: Relay, sh: Shared, op: Op)
    requires Chained(r, op) && (op.WriteTunnelOk? || op.WriteUpgrade?) && !sh.crashed
    ensures var st := BridgeMode(Drop(r, 0), sh);
            if Lost(r.ctl, op) then st.sh.crashed else Bridged(st.r) && !st.sh.crashed
  {
  }

  lemma FlowReads(f: Flow, data: Bytes)
    requires FlowOk(f)
    ensures FlowOk(Reads(f, data))
  {
    assert f.written + f.unsent + data == f.written + (f.unsent + data);
  }

  lemma FlowWrites(f: Flow, data: Bytes, n: nat)
    requires FlowOk(f) && f.unsent == data && n <= |data|
    ensures FlowOk(Writes(f, data, n)) && (n == |data| ==> Writes(f, data, n).unsent == [])
  {
    assert data == data[..n] + data[n..];
    assert f.written + data == f.written + data[..n] + data[n..];
  }

  /** A bridge whose direction `d` has nothing in flight. */
  predicate Half(r: Relay, d: Dir) {
    && AttemptsOk(r.ex.attempts)
    && FlowOk(r.up) && FlowOk(r.down)
    && (r.ctl.fin == SentEarly ==> r.ctl.draining)
    && (r.ctl.pending.Nil? ||
        (r.ctl.pending.rest.Nil? && PumpOk(r, r.ctl.pending.op) && r.ctl.pending.op.dir != d))
    && (if r.ctl.done then r.ctl.phase != Request
        else r.ctl.phase == Bridge && r.ctl.pending.Cons? && r.peer.backend.Stream? && r.ctl.fin != Sent)
  }

  lemma DropHalf(r: Relay, i: nat)
    requires Bridged(r) && i < Length(r.ctl.pending)
    ensures var op := Nth(r.ctl.pending, i); PumpOk(r, op) && Half(Drop(r, i), op.dir)
  {
    var ops := r.ctl.pending;
    if i > 0 {
      assert ops.rest.Cons? && ops.rest.rest.Nil?;
      assert Length(ops.rest.rest) == 0 && Length(ops.rest) == 1;
      assert i == 1;
      assert Nth(ops, 1) == ops.rest.op;
      assert Without(ops, 1) == Cons(ops.op, Nil);
    }
  }

  lemma HalfFlow(r: Relay, d: Dir, f: Flow)
    requires Half(r, d) && FlowOk(f)
    ensures Half(SetFlow(r, d, f), d)
  {
  }

  lemma HalfIssue(r: Relay, op: Op)
    requires IsPump(op) && Half(r, op.dir) && PumpOk(r, op)
    ensures Bridged(Issue(r, op))
  {
  }

  lemma HalfTeardown(r: Relay, sh: Shared, d: Dir)
    requires Half(r, d)
    ensures Bridged(Teardown(r, sh).r) && Teardown(r, sh).sh.crashed == sh.crashed
  {
    var st := Teardown(r, sh);
    assert Bridged(st.r);
  }

  lemma PumpReadBridge(r: Relay, sh: Shared, i: nat, d: Dir, o: Outcome)
    requires Bridged(r) && i < Length(r.ctl.pending) && Nth(r.ctl.pending, i) == PumpRead(d) && (o.Data? || o.Failed?)
    ensures var st := OnPumpRead(Drop(r, i), sh, d, o); Bridged(st.r) && st.sh.crashed == sh.crashed
  {
    var r0 := Drop(r, i);
    DropHalf(r, i);
    if o.Failed? {
      HalfTeardown(r0, sh, d);
    } else {
      var f := Reads(FlowOf(r0, d), o.bytes);
      FlowReads(FlowOf(r0, d), o.bytes);
      HalfFlow(r0, d, f);
      var r1 := SetFlow(r0, d, f);
      if r.ctl.done || o.bytes == [] {
        HalfTeardown(r1, sh, d);
      } else {
        HalfIssue(r1, PumpWrite(d, o.bytes));
      }
    }
  }

  lemma PumpWriteBridge(r: Relay, sh: Shared, i: nat, d: Dir, data: Bytes, o: Outcome)
    requires Bridged(r) && i < Length(r.ctl.pending) && Nth(r.ctl.pending, i) == PumpWrite(d, data)
    requires o.Ok? || (o.Cut? && o.accepted <= |data|)
    ensures var st := OnPumpWrite(Drop(r, i), sh, d, data, o); Bridged(st.r) && st.sh.crashed == sh.crashed
  {
    var r0 := Drop(r, i);
    DropHalf(r, i);
    var n := if o.Ok? then |data| else o.accepted;
    var f := Writes(FlowOf(r0, d), data, n);
    FlowWrites(FlowOf(r0, d), data, n);
    HalfFlow(r0, d, f);
    var r1 := SetFlow(r0, d, f);
    if r.ctl.done || o.Cut? {
      HalfTeardown(r1, sh, d);
    } else {
      HalfIssue(r1, PumpRead(d));
    }
  }
}
