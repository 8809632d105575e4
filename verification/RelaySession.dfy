/** The relay as the object whose callbacks update its fields.  `Complete` takes a finished operation off
    the list of those in flight and runs its callback; `WorkerLoop` drives the relays of a worker with it. */
module RelaySession {
  import opened Common
  import opened RelayModel
  import opened UpstreamPool
  import M = RelayModel

  /** What the relays of a worker share. */
  class Worker {
    const pool: UpstreamPool
    var stats: Stats
    var streams: Streams
    ghost var crashed: bool

    constructor (pool: UpstreamPool)
      ensures this.pool == pool && stats == NO_STATS && streams == NO_STREAMS && !crashed
    {
      this.pool, stats, streams, crashed := pool, NO_STATS, NO_STREAMS, false;
    }

    ghost function Value(): Shared
      reads this, pool
    {
      Shared(pool.Value(), stats, streams, crashed)
    }
  }

  class RelaySession {
    const h1: bool
    const worker: Worker
    var phase: Phase
    var done: bool
    var draining: bool
    var backend: Link
    var backendEndpoint: Endpoint
    var backendFromPool: bool
    var pendingHead: bool
    var pendingBody: bool
    var clientKeepAlive: bool
    var requestIsUpgrade: bool
    var requestIsHead: bool
    var pending: Ops
    // The history the theorems speak of.
    ghost var fin: Fin
    ghost var tornWith: Ops
    ghost var begun: nat
    ghost var outcomes: nat
    ghost var tunnel: bool
    ghost var attempts: Attempts
    ghost var up: Flow
    ghost var down: Flow

    constructor (h1: bool, worker: Worker)
      ensures Value() == Started(h1) && this.worker == worker
    {
      this.h1, this.worker := h1, worker;
      phase, done, draining := Request, false, false;
      backend, backendEndpoint, backendFromPool := Null, Endpoint("", "", 0, Tcp), false;
      pendingHead, pendingBody, clientKeepAlive := false, false, false;
      requestIsUpgrade, requestIsHead := false, false;
      pending, fin, tornWith := Cons(ParseRequest, Nil), NotSent, Nil;
      begun, outcomes, tunnel, attempts := 0, 0, false, NoAttempt;
      up, down := NO_FLOW, NO_FLOW;
    }

    ghost function Ctl(): Control
      reads this
    {
      Control(phase, done, draining, pending, fin, tornWith)
    }

    ghost function ThePeer(): Peer
      reads this
    {
      Peer(backend, backendEndpoint, backendFromPool)
    }

    ghost function Ex(): Exchange
      reads this
    {
      Exchange(pendingHead, pendingBody, clientKeepAlive, requestIsUpgrade, requestIsHead,
               begun, outcomes, tunnel, attempts)
    }

    ghost function Value(): Relay
      reads this
    {
      Relay(h1, Ctl(), ThePeer(), Ex(), up, down)
    }

    ghost function Snapshot(): State
      reads this, worker, worker.pool
    {
      State(Value(), worker.Value())
    }

    // ---- helpers --------------------------------------------------------------

    method SetBackend(link: Link, ep: Endpoint, fromPool: bool)
      modifies this
      ensures Value() == old(Value()).(peer := Peer(link, ep, fromPool))
    {
      backend, backendEndpoint, backendFromPool := link, ep, fromPool;
    }

    /** Keeps the request for a retry, or drops it. */
    method HoldRequest(head: bool, body: bool)
      modifies this
      ensures Value() == old(Value()).(ex := old(Ex()).(head := head, body := body))
    {
      pendingHead, pendingBody := head, body;
    }

    method CloseBackend()
      modifies this, worker
      ensures Snapshot() == M.CloseBackend(old(Value()), old(worker.Value()))
    {
      if backend.Stream? {
        worker.streams := Shutdown(worker.streams, backend.id);
        backend := Null;
      }
    }

    method Teardown()
      modifies this, worker
      ensures Snapshot() == M.Teardown(old(Value()), old(worker.Value()))
    {
      if done {
        return;
      }
      done := true;
      phase := Closed;
      fin, tornWith := if fin == SentEarly then SentEarly else Sent, pending;
      assert Value() == old(Value()).(ctl := Torn(old(Ctl()))) && worker.Value() == old(worker.Value());
      CloseBackend();
    }

    method RequestPhase()
      modifies this
      ensures Value() == old(Value()).(ctl := M.RequestPhase(old(Ctl())))
    {
      phase := Request;
      pending := Cons(ParseRequest, pending);
    }

    method DrainClient()
      modifies this
      ensures Value() == old(Value()).(ctl := M.DrainClient(old(Ctl())))
    {
      if !done {
        pending := Cons(DrainRead, pending);
      }
    }

    method GracefullyCloseClient()
      modifies this
      ensures Value() == old(Value()).(ctl := M.GracefullyCloseClient(old(Ctl())))
    {
      if done {
        return;
      }
      draining := true;
      fin := if fin == SentEarly then SentEarly else Sent;
      DrainClient();
    }

    method AfterClientResponse()
      modifies this
      ensures Value() == old(Value()).(ctl := M.AfterClientResponse(old(Ctl()), old(clientKeepAlive), h1))
    {
      if draining {
        GracefullyCloseClient();
      } else if clientKeepAlive && !done && h1 {
        RequestPhase();
      } else if h1 {
        GracefullyCloseClient();
      } else {
        DrainClient();
      }
    }

    method WriteErrorResponse()
      modifies this, worker
      ensures Snapshot() == ReportError(old(Value()), old(worker.Value()))
    {
      worker.stats := worker.stats.(respErr := worker.stats.respErr + 1, localErrors := worker.stats.localErrors + 1);
      outcomes := outcomes + 1;
      pending := Cons(WriteError, pending);
    }

    /** Both `backend` and `pendingHead` are dereferenced. */
    method SendBackendRequest(retryAllowed: bool)
      modifies this, worker
      ensures Snapshot() == M.SendBackendRequest(old(Value()), old(worker.Value()), retryAllowed)
    {
      if backend.Null? || !pendingHead {
        worker.crashed := true;
        return;
      }
      attempts := Tried(Attempt(backend.id, backendFromPool, pendingBody, false), attempts);
      pending := Cons(WriteRequest(retryAllowed), pending);
    }

    method UseBackend(upstream: StreamId, ep: Endpoint, fromPool: bool, hasBody: bool)
      modifies this, worker
      ensures Snapshot() == M.UseBackend(old(Value()), old(worker.Value()), upstream, ep, fromPool, hasBody)
    {
      SetBackend(Link.Stream(upstream), ep, fromPool);
      if !fromPool {
        worker.stats := CountConnect(worker.stats);
      }
      HoldRequest(true, hasBody);
      SendBackendRequest(true);
    }

    method ResponsePhase()
      modifies this, worker
      ensures Snapshot() == M.ResponsePhase(old(Value()), old(worker.Value()))
    {
      phase := Response;
      if backend.Null? {
        worker.crashed := true;
        return;
      }
      pending := Cons(ParseResponse, pending);
    }

    method BridgeMode()
      modifies this, worker
      ensures Snapshot() == M.BridgeMode(old(Value()), old(worker.Value()))
    {
      phase := Bridge;
      pending := Cons(PumpRead(Up), pending);
      if backend.Null? {
        worker.crashed := true;
        return;
      }
      pending := Cons(PumpRead(Down), pending);
      worker.streams := worker.streams.(bridged := worker.streams.bridged + {backend.id});
    }

    method FinishBackend(keepAlive: bool)
      modifies this, worker, worker.pool
      ensures Snapshot() == M.FinishBackend(old(Value()), old(worker.Value()), keepAlive)
    {
      HoldRequest(false, false);
      if backend.Null? {
        return;
      }
      if keepAlive {
        var s := backend.id;
        backend := Null;
        var kept := worker.pool.Release(backendEndpoint, s);
        if !kept {
          worker.streams := worker.streams.(gone := worker.streams.gone + multiset{s});
        }
      } else {
        CloseBackend();
      }
    }

    // ---- callbacks ------------------------------------------------------------

    method OnParsed(req: Req)
      modifies this, worker, worker.pool
      ensures Snapshot() == M.OnParsed(old(Value()), old(worker.Value()), req)
    {
      BeginExchange(req);
      worker.stats := worker.stats.(requests := worker.stats.requests + 1);
      assert Value() == M.BeginExchange(old(Value()), req) && worker.Value() == CountRequest(old(worker.Value()));
      Dispatch(req);
    }

    method BeginExchange(req: Req)
      modifies this
      ensures Value() == M.BeginExchange(old(Value()), req)
    {
      Remember(req);
      phase := Forward;
    }

    method Remember(req: Req)
      modifies this
      ensures Value() == old(Value()).(ex := Begin(old(Ex()), req))
    {
      clientKeepAlive, requestIsUpgrade, requestIsHead := req.keepAlive, req.upgrade, req.isHead;
      StartHistory();
    }

    ghost method StartHistory()
      modifies `begun, `outcomes, `tunnel, `attempts
      ensures begun == old(begun) + 1 && outcomes == 0 && !tunnel && attempts == NoAttempt
    {
      begun, outcomes, tunnel, attempts := begun + 1, 0, false, NoAttempt;
    }

    method Dispatch(req: Req)
      modifies this, worker, worker.pool
      ensures Snapshot() == M.Dispatch(old(Value()), old(worker.Value()), req)
    {
      match req.target
      case Tunnel(None) => WriteErrorResponse();
      case Tunnel(Some(ep)) => pending := Cons(Connect(ForTunnel, ep), pending);
      case Absolute(None) => WriteErrorResponse();
      case Absolute(Some(ep)) => pending := Cons(Connect(ForRequest(req.hasBody), ep), pending);
      case Routed(id) =>
        if id == "" {
          WriteErrorResponse();
        } else {
          PoolConnect(id, req.hasBody);
        }
    }

    /** The pool answers at once when it has no endpoint or has an idle stream. */
    method PoolConnect(id: string, hasBody: bool)
      modifies this, worker, worker.pool
      ensures Snapshot() == M.PoolConnect(old(Value()), old(worker.Value()), id, hasBody)
    {
      var found := worker.pool.AsyncConnect(id);
      match found
      case NotFound => WriteErrorResponse();
      case Idle(s, be) => UseBackend(s, be, true, hasBody);
      case Dial(be) => pending := Cons(Connect(ForRequest(hasBody), be), pending);
    }

    /** A connect has succeeded with the stream that comes next in the worker. */
    method OnConnected(use: ConnectUse, ep: Endpoint, fromPool: bool)
      modifies this, worker
      ensures Snapshot() == M.OnConnected(old(Value()), old(worker.Value()), use, ep, fromPool)
    {
      var s := worker.streams.next;
      worker.streams := Create(worker.streams, ep);
      match use
      case ForRequest(hasBody) =>
        if fromPool {
          worker.stats := worker.stats.(quicReused := worker.stats.quicReused + 1);
        }
        UseBackend(s, ep, fromPool, hasBody);
      case ForTunnel =>
        SetBackend(Link.Stream(s), ep, backendFromPool);
        tunnel := true;
        worker.stats := worker.stats.(tunnels := worker.stats.tunnels + 1);
        pending := Cons(WriteTunnelOk, pending);
      case ForRetry =>
        SetBackend(Link.Stream(s), ep, false);
        worker.stats := CountConnect(worker.stats);
        SendBackendRequest(false);
    }

    ghost method NoteFailure()
      modifies this
      ensures Value() == old(Value()).(ex := old(Ex()).(attempts := MarkFailed(old(attempts))))
    {
      attempts := MarkFailed(attempts);
    }

    method OnRequestWritten(retryAllowed: bool, ok: bool)
      modifies this, worker
      ensures Snapshot() == M.OnRequestWritten(old(Value()), old(worker.Value()), retryAllowed, ok)
    {
      if ok {
        HoldRequest(false, false);
        ResponsePhase();
        return;
      }
      NoteFailure();
      var stale := retryAllowed && backendFromPool && !pendingBody;
      CloseBackend();
      if stale {
        pending := Cons(Connect(ForRetry, backendEndpoint), pending);
      } else {
        WriteErrorResponse();
      }
    }

    method OnResponse(o: Outcome)
      requires o.Answered? || o.Failed?
      modifies this, worker
      ensures Snapshot() == M.OnResponse(old(Value()), old(worker.Value()), o)
    {
      if o.Failed? {
        CloseBackend();
        WriteErrorResponse();
        return;
      }
      var hasBody := o.hasBody;
      if requestIsHead {
        hasBody := false;
      }
      worker.stats := CountResponse(worker.stats, o.status);
      outcomes := outcomes + 1;
      if requestIsUpgrade && o.status == 101 {
        pending := Cons(WriteUpgrade, pending);
      } else {
        pending := Cons(WriteResponse(o.keepAlive, hasBody), pending);
      }
    }

    method OnUpgradeWritten(ok: bool)
      modifies this, worker
      ensures var r, sh := old(Value()), old(worker.Value());
              Snapshot() == if ok then M.BridgeMode(r.(peer := r.peer.(fromPool := false)), sh) else M.Teardown(r, sh)
    {
      if !ok {
        Teardown();
        return;
      }
      backendFromPool := false;
      BridgeMode();
    }

    /** The outcome of the write is not looked at. */
    method OnResponseWritten(keepAlive: bool)
      modifies this, worker, worker.pool
      ensures Snapshot() == M.OnResponseWritten(old(Value()), old(worker.Value()), keepAlive)
    {
      FinishBackend(keepAlive);
      AfterClientResponse();
    }

    method OnPumpRead(d: Dir, o: Outcome)
      requires o.Data? || o.Failed?
      modifies this, worker
      ensures Snapshot() == M.OnPumpRead(old(Value()), old(worker.Value()), d, o)
    {
      if o.Data? {
        up, down := if d == Up then Reads(up, o.bytes) else up, if d == Up then down else Reads(down, o.bytes);
      }
      if done {
        return;
      }
      if o.Failed? || o.bytes == [] {
        Teardown();
        return;
      }
      pending := Cons(PumpWrite(d, o.bytes), pending);
    }

    method OnPumpWrite(d: Dir, data: Bytes, o: Outcome)
      requires o.Ok? || (o.Cut? && o.accepted <= |data|)
      modifies this, worker
      ensures Snapshot() == M.OnPumpWrite(old(Value()), old(worker.Value()), d, data, o)
    {
      ghost var n := if o.Ok? then |data| else o.accepted;
      up, down := if d == Up then Writes(up, data, n) else up, if d == Up then down else Writes(down, data, n);
      if done {
        return;
      }
      if o.Cut? {
        Teardown();
        return;
      }
      pending := Cons(PumpRead(d), pending);
    }

    method OnDrainRead(o: Outcome)
      requires o.Data? || o.Failed?
      modifies this, worker
      ensures Snapshot() == M.OnDrainRead(old(Value()), old(worker.Value()), o)
    {
      if done {
        return;
      }
      if o.Failed? || o.bytes == [] {
        Teardown();
        return;
      }
      DrainClient();
    }

    method GracefulClose()
      modifies this
      ensures Value() == old(Value()).(ctl := M.GracefulClose(old(Ctl())))
    {
      if done {
        return;
      }
      draining := true;
      if phase == Request {
        fin := SentEarly;
      }
    }

    // ---- the event loop -------------------------------------------------------

    /** Runs the callback of a finished operation. */
    method OnComplete(op: Op, o: Outcome)
      requires Fits(op, o)
      modifies this, worker, worker.pool
      ensures Snapshot() == M.OnComplete(old(Value()), old(worker.Value()), op, o)
    {
      match op
      case ParseRequest => if o.Failed? { Teardown(); } else { OnParsed(o.req); }
      case Connect(use, ep) => if o.Failed? { WriteErrorResponse(); } else { OnConnected(use, ep, o.fromPool); }
      case WriteRequest(retryAllowed) => OnRequestWritten(retryAllowed, o.Ok?);
      case ParseResponse => OnResponse(o);
      case WriteTunnelOk => if o.Failed? { Teardown(); } else { BridgeMode(); }
      case WriteUpgrade => OnUpgradeWritten(o.Ok?);
      case WriteResponse(keepAlive, _) => OnResponseWritten(keepAlive);
      case WriteError => AfterClientResponse();
      case DrainRead => OnDrainRead(o);
      case PumpRead(d) => OnPumpRead(d, o);
      case PumpWrite(d, data) => OnPumpWrite(d, data, o);
    }

    /** The operation at `index` is no longer in flight when its callback runs. */
    method Complete(index: nat, o: Outcome)
      requires index < Length(pending) && Fits(Nth(pending, index), o)
      modifies this, worker, worker.pool
      ensures Snapshot() == M.OnComplete(Drop(old(Value()), index), old(worker.Value()), Nth(old(pending), index), o)
    {
      var op := Nth(pending, index);
      pending := Without(pending, index);
      assert Value() == Drop(old(Value()), index) && worker.Value() == old(worker.Value());
      OnComplete(op, o);
    }

    /** A finished operation, the idle timer, or the request to close. */
    method OnEvent(e: Event)
      requires !e.Accept?
      requires e.Complete? ==> e.index < Length(pending) && Fits(Nth(pending, e.index), e.outcome)
      modifies this, worker, worker.pool
      ensures Snapshot() == Act(old(Value()), old(worker.Value()), e)
    {
      match e
      case Complete(_, index, o) => Complete(index, o);
      case Timer(_) => Teardown();
      case Graceful(_) => GracefulClose();
    }
  }
}
