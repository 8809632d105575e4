/**
  The relay phase machine and the upstream pool it shares with its siblings, on values.

  A relay never blocks: it issues asynchronous operations and continues in their
  callbacks.  `Control.pending` lists the operations whose callback has not run yet,
  newest first.  An event completes one of them with an arbitrary outcome, lets the idle
  timer expire, or asks the relay to close.  Every function below does exactly what
  the callback or helper of the same name does, including what it does after teardown.
 */
module RelayModel {
  import opened Common

  type StreamId = nat

  datatype Protocol = Tcp | Quic

  datatype Endpoint = Endpoint(id: string, host: string, port: nat, proto: Protocol)

  /** `backend_`: null or a stream. */
  datatype Link = Null | Stream(id: StreamId)

  datatype Phase = Request | Forward | Response | Bridge | Closed

  /** Direction of a bridge pump: client to backend, or backend to client. */
  datatype Dir = Up | Down

  /** Which callback a pool connect was started with. */
  datatype ConnectUse = ForRequest(hasBody: bool) | ForTunnel | ForRetry

  datatype Op =
    | ParseRequest
    | Connect(use: ConnectUse, ep: Endpoint)
    | WriteRequest(retryAllowed: bool)
    | ParseResponse
    | WriteTunnelOk
    | WriteUpgrade
    | WriteResponse(keepAlive: bool, hasBody: bool)
    | WriteError
    | DrainRead
    | PumpRead(dir: Dir)
    | PumpWrite(dir: Dir, data: Bytes)

  /** Operations in flight, newest first. */
  datatype Ops = Nil | Cons(op: Op, rest: Ops)

  function Length(ops: Ops): nat {
    match ops
    case Nil => 0
    case Cons(_, rest) => 1 + Length(rest)
  }

  function Nth(ops: Ops, i: nat): Op
    requires i < Length(ops)
  {
    if i == 0 then ops.op else Nth(ops.rest, i - 1)
  }

  function Without(ops: Ops, i: nat): Ops
    requires i < Length(ops)
  {
    if i == 0 then ops.rest else Cons(ops.op, Without(ops.rest, i - 1))
  }

  /** One attempt to write the current request to a backend. */
  datatype Attempt = Attempt(stream: StreamId, pooled: bool, hasBody: bool, failed: bool)

  /** The attempts for one request, newest first. */
  datatype Attempts = NoAttempt | Tried(last: Attempt, earlier: Attempts)

  /** What one bridge direction has read, written, and read without having written it yet. */
  datatype Flow = Flow(read: Bytes, written: Bytes, unsent: Bytes)

  /** The client stream's write side: open, shut down for good, or shut down early by
      graceful_close with the next request's parse still pending. */
  datatype Fin = NotSent | Sent | SentEarly

  /** Where the relay is and what it waits for. */
  datatype Control = Control(
    phase: Phase,
    done: bool,
    draining: bool,
    pending: Ops,
    fin: Fin,               // history
    tornWith: Ops)          // history: operations pending when teardown ran

  /** `backend_`, `backend_endpoint_` and `backend_from_pool_`. */
  datatype Peer = Peer(backend: Link, endpoint: Endpoint, fromPool: bool)

  /** What the relay remembers of the request it serves. */
  datatype Exchange = Exchange(
    head: bool,             // pending_head_ is set
    body: bool,             // pending_body_ is set
    keepAlive: bool,
    upgrade: bool,
    isHead: bool,           // request_method_ == "HEAD"
    begun: nat,             // history: requests this relay has begun
    outcomes: nat,          // history: outcomes counted for the current request
    tunnel: bool,           // history: the current request reached a CONNECT target
    attempts: Attempts)     // history: backend writes of the current request

  datatype Relay = Relay(
    h1: bool,               // client_codec_ == h1_codec_
    ctl: Control,
    peer: Peer,
    ex: Exchange,
    up: Flow,               // history of the bridge, client to backend
    down: Flow)             // ... and backend to client

  datatype Entry = Entry(be: Endpoint, idle: seq<StreamId>)

  datatype Pool = Pool(entries: seq<Entry>, rr: nat)

  /** ProxyStats, and three counts of events that have no counter of their own. */
  datatype Stats = Stats(
    requests: nat, respOk: nat, respErr: nat, backendConnects: nat, latCount: nat,
    tunnels: nat,           // CONNECT targets reached
    localErrors: nat,       // locally generated error responses
    quicReused: nat)        // streams opened on a pooled QUIC session

  /** The backend streams of the worker. */
  datatype Streams = Streams(
    next: StreamId,                  // streams 0 .. next-1 have been created
    origin: map<StreamId, Endpoint>, // what each stream was connected to
    shut: set<StreamId>,             // shut down by the relay
    gone: multiset<StreamId>,        // no longer referenced by relay or pool
    bridged: set<StreamId>)

  /** Everything the relays of one worker share. */
  datatype Shared = Shared(pool: Pool, stats: Stats, streams: Streams,
                           crashed: bool)  // a null pointer was dereferenced

  const MAX_IDLE_PER_ENDPOINT := 8
  const SIZE_T_LIMIT := 0x1_0000_0000_0000_0000

  datatype Target =
    | Tunnel(to: Option<Endpoint>)   // CONNECT; None when the target is malformed
    | Absolute(to: Option<Endpoint>) // absolute-form; None when it is rejected
    | Routed(backendId: string)      // origin-form; "" when no route matches

  datatype Req = Req(target: Target, hasBody: bool, keepAlive: bool, upgrade: bool, isHead: bool)

  datatype Outcome =
    | Failed
    | Ok
    | Parsed(req: Req)
    | Connected(fromPool: bool)
    | Answered(status: nat, keepAlive: bool, hasBody: bool)
    | Data(bytes: Bytes)
    | Cut(accepted: nat)             // a write that failed after some bytes went out

  /** One relay and what it shares with the others. */
  datatype State = State(r: Relay, sh: Shared)

  // ---- helpers of RelaySession ------------------------------------------------

  function Await(c: Control, op: Op): Control {
    c.(pending := Cons(op, c.pending))
  }

  function Issue(r: Relay, op: Op): Relay {
    r.(ctl := Await(r.ctl, op))
  }

  function Drop(r: Relay, i: nat): Relay
    requires i < Length(r.ctl.pending)
  {
    r.(ctl := r.ctl.(pending := Without(r.ctl.pending, i)))
  }

  function Shutdown(ss: Streams, s: StreamId): Streams {
    ss.(shut := ss.shut + {s}, gone := ss.gone + multiset{s})
  }

  function CloseBackend(r: Relay, sh: Shared): State {
    match r.peer.backend
    case Stream(s) => State(r.(peer := r.peer.(backend := Null)), sh.(streams := Shutdown(sh.streams, s)))
    case Null => State(r, sh)
  }

  function Torn(c: Control): Control {
    c.(done := true, phase := Closed, fin := if c.fin == SentEarly then SentEarly else Sent, tornWith := c.pending)
  }

  function Teardown(r: Relay, sh: Shared): State {
    if r.ctl.done then State(r, sh) else CloseBackend(r.(ctl := Torn(r.ctl)), sh)
  }

  function RequestPhase(c: Control): Control {
    Await(c.(phase := Request), ParseRequest)
  }

  function DrainClient(c: Control): Control {
    if c.done then c else Await(c, DrainRead)
  }

  function GracefullyCloseClient(c: Control): Control {
    if c.done then c
    else DrainClient(c.(draining := true, fin := if c.fin == SentEarly then SentEarly else Sent))
  }

  function AfterClientResponse(c: Control, keepAlive: bool, h1: bool): Control {
    if c.draining then GracefullyCloseClient(c)
    else if keepAlive && !c.done && h1 then RequestPhase(c)
    else if h1 then GracefullyCloseClient(c)
    else DrainClient(c)
  }

  function CountError(n: Stats): Stats {
    n.(respErr := n.respErr + 1, localErrors := n.localErrors + 1)
  }

  /** An outcome of the current exchange is counted. */
  function Decide(r: Relay): Relay {
    r.(ex := r.ex.(outcomes := r.ex.outcomes + 1))
  }

  function ReportError(r: Relay, sh: Shared): State {
    State(Issue(Decide(r), WriteError), sh.(stats := CountError(sh.stats)))
  }

  /** Both `backend_` and `pending_head_` are dereferenced here. */
  function SendBackendRequest(r: Relay, sh: Shared, retryAllowed: bool): State {
    if r.peer.backend.Null? || !r.ex.head then State(r, sh.(crashed := true))
    else
      var a := Attempt(r.peer.backend.id, r.peer.fromPool, r.ex.body, false);
      State(Issue(r.(ex := r.ex.(attempts := Tried(a, r.ex.attempts))), WriteRequest(retryAllowed)), sh)
  }

  function CountConnect(n: Stats): Stats {
    n.(backendConnects := n.backendConnects + 1)
  }

  function UseBackend(r: Relay, sh: Shared, s: StreamId, ep: Endpoint, fromPool: bool, hasBody: bool): State {
    SendBackendRequest(
      r.(peer := Peer(Stream(s), ep, fromPool), ex := r.ex.(head := true, body := hasBody)),
      if fromPool then sh else sh.(stats := CountConnect(sh.stats)), true)
  }

  function ResponsePhase(r: Relay, sh: Shared): State {
    var r1 := r.(ctl := r.ctl.(phase := Response));
    if r.peer.backend.Null? then State(r1, sh.(crashed := true)) else State(Issue(r1, ParseResponse), sh)
  }

  function BridgeMode(r: Relay, sh: Shared): State {
    var r1 := Issue(r.(ctl := r.ctl.(phase := Bridge)), PumpRead(Up));
    match r.peer.backend
    case Null => State(r1, sh.(crashed := true))
    case Stream(s) =>
      State(Issue(r1, PumpRead(Down)), sh.(streams := sh.streams.(bridged := sh.streams.bridged + {s})))
  }

  function FinishBackend(r: Relay, sh: Shared, keepAlive: bool): State {
    var r1 := r.(ex := r.ex.(head := false, body := false));
    match r.peer.backend
    case Null => State(r1, sh)
    case Stream(s) =>
      if keepAlive then Release(r1.(peer := r.peer.(backend := Null)), sh, r.peer.endpoint, s)
      else CloseBackend(r1, sh)
  }

  // ---- UpstreamPool, TCP side -------------------------------------------------

  predicate SameServer(a: Endpoint, b: Endpoint) {
    a.id == b.id && a.host == b.host && a.port == b.port
  }

  /** Positions, from `from` on, of the endpoints in group `id`. */
  function Candidates(entries: seq<Entry>, id: string, from: nat := 0): (c: seq<nat>)
    requires from <= |entries|
    ensures forall k :: 0 <= k < |c| ==> from <= c[k] < |entries| && entries[c[k]].be.id == id
    decreases |entries| - from
  {
    if from == |entries| then []
    else (if entries[from].be.id == id then [from] else []) + Candidates(entries, id, from + 1)
  }

  /** First entry for the same server, or `|entries|`. */
  function FindServer(entries: seq<Entry>, ep: Endpoint, from: nat := 0): (k: nat)
    requires from <= |entries|
    ensures from <= k <= |entries|
    ensures k < |entries| ==> SameServer(entries[k].be, ep)
    ensures forall j :: from <= j < k ==> !SameServer(entries[j].be, ep)
    decreases |entries| - from
  {
    if from == |entries| || SameServer(entries[from].be, ep) then from
    else FindServer(entries, ep, from + 1)
  }

  /** The queue `release` appends to, or `|entries|` when it drops the stream. */
  function Slot(p: Pool, ep: Endpoint): (k: nat)
    ensures k <= |p.entries|
  {
    var k := FindServer(p.entries, ep);
    if ep.proto == Quic || (k < |p.entries| && |p.entries[k].idle| >= MAX_IDLE_PER_ENDPOINT) then |p.entries| else k
  }

  function Enqueue(p: Pool, k: nat, s: StreamId): Pool
    requires k < |p.entries|
  {
    p.(entries := p.entries[k := p.entries[k].(idle := p.entries[k].idle + [s])])
  }

  function Release(r: Relay, sh: Shared, ep: Endpoint, s: StreamId): State {
    var k := Slot(sh.pool, ep);
    State(r,
          if k == |sh.pool.entries| then sh.(streams := sh.streams.(gone := sh.streams.gone + multiset{s}))
          else sh.(pool := Enqueue(sh.pool, k, s)))
  }

  /** The queue an idle stream is taken from, with the endpoint chosen round-robin. */
  function Chosen(p: Pool, id: string): (k: nat)
    ensures k <= |p.entries|
    ensures k < |p.entries| ==> p.entries[k].be.id == id
  {
    var c := Candidates(p.entries, id);
    if c == [] then |p.entries| else c[p.rr % |c|]
  }

  function Dequeue(p: Pool, k: nat): Pool
    requires k < |p.entries| && p.entries[k].idle != []
  {
    p.(entries := p.entries[k := p.entries[k].(idle := p.entries[k].idle[1..])])
  }

  function Turn(p: Pool): Pool {
    p.(rr := (p.rr + 1) % SIZE_T_LIMIT)
  }

  function PoolConnect(r: Relay, sh: Shared, id: string, hasBody: bool): State {
    var k := Chosen(sh.pool, id);
    if k == |sh.pool.entries| then ReportError(r, sh)
    else
      var e := sh.pool.entries[k];
      if e.be.proto == Tcp && e.idle != [] then
        UseBackend(r, sh.(pool := Turn(Dequeue(sh.pool, k))), e.idle[0], e.be, true, hasBody)
      else State(Issue(r, Connect(ForRequest(hasBody), e.be)), sh.(pool := Turn(sh.pool)))
  }

  /** A fresh stream to `ep` enters the world. */
  function Create(ss: Streams, ep: Endpoint): Streams {
    ss.(next := ss.next + 1, origin := ss.origin[ss.next := ep])
  }

  // ---- callbacks of RelaySession ----------------------------------------------

  function Begin(ex: Exchange, req: Req): Exchange {
    ex.(keepAlive := req.keepAlive, upgrade := req.upgrade, isHead := req.isHead, begun := ex.begun + 1,
        outcomes := 0, tunnel := false, attempts := NoAttempt)
  }

  function BeginExchange(r: Relay, req: Req): Relay {
    r.(ctl := r.ctl.(phase := Forward), ex := Begin(r.ex, req))
  }

  function CountRequest(sh: Shared): Shared {
    sh.(stats := sh.stats.(requests := sh.stats.requests + 1))
  }

  function OnParsed(r: Relay, sh: Shared, req: Req): State {
    Dispatch(BeginExchange(r, req), CountRequest(sh), req)
  }

  function Dispatch(r: Relay, sh: Shared, req: Req): State {
    match req.target
    case Tunnel(None) => ReportError(r, sh)
    case Tunnel(Some(ep)) => State(Issue(r, Connect(ForTunnel, ep)), sh)
    case Absolute(None) => ReportError(r, sh)
    case Absolute(Some(ep)) => State(Issue(r, Connect(ForRequest(req.hasBody), ep)), sh)
    case Routed(id) => if id == "" then ReportError(r, sh) else PoolConnect(r, sh, id, req.hasBody)
  }

  function OnConnected(r: Relay, sh: Shared, use: ConnectUse, ep: Endpoint, fromPool: bool): State {
    var s := sh.streams.next;
    var sh1 := sh.(streams := Create(sh.streams, ep));
    match use
    case ForRequest(hasBody) =>
      UseBackend(r, if fromPool then sh1.(stats := sh.stats.(quicReused := sh.stats.quicReused + 1)) else sh1,
                 s, ep, fromPool, hasBody)
    case ForTunnel =>
      var r1 := r.(peer := r.peer.(backend := Stream(s), endpoint := ep), ex := r.ex.(tunnel := true));
      State(Issue(r1, WriteTunnelOk), sh1.(stats := sh.stats.(tunnels := sh.stats.tunnels + 1)))
    case ForRetry =>
      SendBackendRequest(r.(peer := Peer(Stream(s), ep, false)), sh1.(stats := CountConnect(sh.stats)), false)
  }

  function MarkFailed(a: Attempts): Attempts {
    match a
    case NoAttempt => a
    case Tried(last, earlier) => Tried(last.(failed := true), earlier)
  }

  function OnRequestWritten(r: Relay, sh: Shared, retryAllowed: bool, ok: bool): State {
    if ok then ResponsePhase(r.(ex := r.ex.(head := false, body := false)), sh)
    else
      var st := CloseBackend(r.(ex := r.ex.(attempts := MarkFailed(r.ex.attempts))), sh);
      if retryAllowed && r.peer.fromPool && !r.ex.body
      then State(Issue(st.r, Connect(ForRetry, r.peer.endpoint)), st.sh)
      else ReportError(st.r, st.sh)
  }

  function CountResponse(n: Stats, status: nat): Stats {
    if status >= 400 then n.(respErr := n.respErr + 1, latCount := n.latCount + 1)
    else n.(respOk := n.respOk + 1, latCount := n.latCount + 1)
  }

  function OnResponse(r: Relay, sh: Shared, o: Outcome): State
    requires o.Answered? || o.Failed?
  {
    if o.Failed? then
      var st := CloseBackend(r, sh);
      ReportError(st.r, st.sh)
    else
      var op := if r.ex.upgrade && o.status == 101 then WriteUpgrade
                else WriteResponse(o.keepAlive, o.hasBody && !r.ex.isHead);
      State(Issue(Decide(r), op), sh.(stats := CountResponse(sh.stats, o.status)))
  }

  /** The write's error is ignored: the backend is pooled all the same. */
  function OnResponseWritten(r: Relay, sh: Shared, keepAlive: bool): State {
    var st := FinishBackend(r, sh, keepAlive);
    State(st.r.(ctl := AfterClientResponse(r.ctl, r.ex.keepAlive, r.h1)), st.sh)
  }

  function FlowOf(r: Relay, d: Dir): Flow {
    if d == Up then r.up else r.down
  }

  function SetFlow(r: Relay, d: Dir, f: Flow): Relay {
    if d == Up then r.(up := f) else r.(down := f)
  }

  function Reads(f: Flow, data: Bytes): Flow {
    Flow(f.read + data, f.written, f.unsent + data)
  }

  /** The first `n` bytes of `data` go out. */
  function Writes(f: Flow, data: Bytes, n: nat): Flow
    requires n <= |data|
  {
    Flow(f.read, f.written + data[..n], if n <= |f.unsent| then f.unsent[n..] else [])
  }

  function OnPumpRead(r: Relay, sh: Shared, d: Dir, o: Outcome): State
    requires o.Data? || o.Failed?
  {
    var r1 := if o.Data? then SetFlow(r, d, Reads(FlowOf(r, d), o.bytes)) else r;
    if r.ctl.done then State(r1, sh)
    else if o.Failed? || o.bytes == [] then Teardown(r1, sh)
    else State(Issue(r1, PumpWrite(d, o.bytes)), sh)
  }

  function OnPumpWrite(r: Relay, sh: Shared, d: Dir, data: Bytes, o: Outcome): State
    requires o.Ok? || (o.Cut? && o.accepted <= |data|)
  {
    var r1 := SetFlow(r, d, Writes(FlowOf(r, d), data, if o.Ok? then |data| else o.accepted));
    if r.ctl.done then State(r1, sh)
    else if o.Cut? then Teardown(r1, sh)
    else State(Issue(r1, PumpRead(d)), sh)
  }

  function OnDrainRead(r: Relay, sh: Shared, o: Outcome): State
    requires o.Data? || o.Failed?
  {
    if r.ctl.done then State(r, sh)
    else if o.Failed? || o.bytes == [] then Teardown(r, sh)
    else State(r.(ctl := DrainClient(r.ctl)), sh)
  }

  function GracefulClose(c: Control): Control {
    if c.done then c
    else if c.phase == Request then c.(draining := true, fin := SentEarly)
    else c.(draining := true)
  }

  // ---- runs of a worker -------------------------------------------------------

  datatype World = World(relays: seq<Relay>, sh: Shared)

  datatype Event =
    | Accept(h1: bool)
    | Complete(relay: nat, index: nat, outcome: Outcome)
    | Timer(relay: nat)
    | Graceful(relay: nat)

  /** Which outcomes the transport and the codecs can report for an operation. */
  predicate Fits(op: Op, o: Outcome) {
    match op
    case ParseRequest =>
      o.Failed? || (o.Parsed? && (!o.req.target.Routed? && o.req.target.to.Some? ==>
                                    o.req.target.to.value.id == "" && o.req.target.to.value.proto == Tcp))
    case Connect(use, ep) => o.Failed? || (o.Connected? && (o.fromPool ==> use.ForRequest? && ep.proto == Quic))
    case ParseResponse => o.Failed? || o.Answered?
    case DrainRead => o.Failed? || o.Data?
    case PumpRead(_) => o.Failed? || o.Data?
    case PumpWrite(_, data) => o.Ok? || (o.Cut? && o.accepted <= |data|)
    case _ => o.Failed? || o.Ok?
  }

  function OnComplete(r: Relay, sh: Shared, op: Op, o: Outcome): State
    requires Fits(op, o)
  {
    match op
    case ParseRequest => if o.Failed? then Teardown(r, sh) else OnParsed(r, sh, o.req)
    case Connect(use, ep) => if o.Failed? then ReportError(r, sh) else OnConnected(r, sh, use, ep, o.fromPool)
    case WriteRequest(retryAllowed) => OnRequestWritten(r, sh, retryAllowed, o.Ok?)
    case ParseResponse => OnResponse(r, sh, o)
    case WriteTunnelOk => if o.Failed? then Teardown(r, sh) else BridgeMode(r, sh)
    case WriteUpgrade =>
      if o.Failed? then Teardown(r, sh) else BridgeMode(r.(peer := r.peer.(fromPool := false)), sh)
    case WriteResponse(keepAlive, _) => OnResponseWritten(r, sh, keepAlive)
    case WriteError => State(r.(ctl := AfterClientResponse(r.ctl, r.ex.keepAlive, r.h1)), sh)
    case DrainRead => OnDrainRead(r, sh, o)
    case PumpRead(d) => OnPumpRead(r, sh, d, o)
    case PumpWrite(d, data) => OnPumpWrite(r, sh, d, data, o)
  }

  const NO_FLOW := Flow([], [], [])

  /** A relay right after `start()`. */
  function Started(h1: bool): Relay {
    Relay(h1, RequestPhase(Control(Request, false, false, Nil, NotSent, Nil)),
          Peer(Null, Endpoint("", "", 0, Tcp), false),
          Exchange(false, false, false, false, false, 0, 0, false, NoAttempt),
          NO_FLOW, NO_FLOW)
  }

  predicate Enabled(w: World, e: Event) {
    !w.sh.crashed &&
    match e
    case Accept(_) => true
    case Complete(k, i, o) =>
      && k < |w.relays| && i < Length(w.relays[k].ctl.pending)
      && Fits(Nth(w.relays[k].ctl.pending, i), o)
    case Timer(k) => k < |w.relays|
    case Graceful(k) => k < |w.relays|
  }

  /** What an event does to the relay it names and to the shared state. */
  function Act(r: Relay, sh: Shared, e: Event): State
    requires !e.Accept?
    requires e.Complete? ==> e.index < Length(r.ctl.pending) && Fits(Nth(r.ctl.pending, e.index), e.outcome)
  {
    match e
    case Complete(_, i, o) => OnComplete(Drop(r, i), sh, Nth(r.ctl.pending, i), o)
    case Timer(_) => Teardown(r, sh)
    case Graceful(_) => State(r.(ctl := GracefulClose(r.ctl)), sh)
  }

  function Next(w: World, e: Event): World
    requires Enabled(w, e)
  {
    if e.Accept? then w.(relays := w.relays + [Started(e.h1)])
    else
      var st := Act(w.relays[e.relay], w.sh, e);
      World(w.relays[e.relay := st.r], st.sh)
  }

  const NO_STATS := Stats(0, 0, 0, 0, 0, 0, 0, 0)
  const NO_STREAMS := Streams(0, map[], {}, multiset{}, {})

  /** A worker that has added its backends, whichever they are, and accepted no client yet. */
  predicate Initial(w: World) {
    && w.relays == [] && !w.sh.crashed
    && (forall k :: 0 <= k < |w.sh.pool.entries| ==> w.sh.pool.entries[k].idle == [])
    && w.sh.stats == NO_STATS && w.sh.streams == NO_STREAMS
  }

  /** Every event of the run is enabled where it happens. */
  predicate Legal(w: World, run: seq<Event>)
    decreases run
  {
    run == [] || (Enabled(w, run[0]) && Legal(Next(w, run[0]), run[1..]))
  }

  function Exec(w: World, run: seq<Event>): World
    requires Legal(w, run)
    decreases run
  {
    if run == [] then w else Exec(Next(w, run[0]), run[1..])
  }
}
