/** What each callback of a relay does, on the fields before and after: the operation that follows, the backend,
    the counters, and what becomes of streams and idle queues.  The callbacks do not look at whether the
    relay has been torn down in the meantime, and neither do these statements. */
module RelayMoves {
  import opened Common
  import opened RelayModel
  import opened RelayInvariant
  import opened RelaySteps

  /** The completion of `op` by the event, which is enabled. */
  predicate Ends(r: Relay, e: Event, op: Op) {
    && e.Complete? && e.index < Length(r.ctl.pending) && Nth(r.ctl.pending, e.index) == op
    && Fits(op, e.outcome)
  }

  /** `op` has been issued in place of the operation that is complete, in the given phase. */
  predicate Issued(r: Relay, r': Relay, i: nat, op: Op, phase: Phase)
    requires i < Length(r.ctl.pending)
  {
    r'.ctl == r.ctl.(pending := Cons(op, Without(r.ctl.pending, i)), phase := phase)
  }

  /** The relay answers with an error of its own, which is counted, and leaves the pool alone. */
  predicate Errs(r: Relay, sh: Shared, st: State, i: nat, phase: Phase)
    requires i < Length(r.ctl.pending)
  {
    && Issued(r, st.r, i, WriteError, phase)
    && st.sh.stats.respErr == sh.stats.respErr + 1 && st.sh.stats.localErrors == sh.stats.localErrors + 1
    && st.sh.pool == sh.pool
  }

  /** A client that is accepted gets a relay of its own, which waits for a request. */
  lemma AcceptMoves(w: World, h1: bool)
    requires Enabled(w, Accept(h1))
    ensures var w' := Next(w, Accept(h1));
            && |w'.relays| == |w.relays| + 1 && w'.relays[..|w.relays|] == w.relays && w'.sh == w.sh
            && var r := w'.relays[|w.relays|];
               && r.h1 == h1 && r.peer.backend.Null? && r.ctl.phase == Request && r.ctl.fin == NotSent
               && r.ctl.pending == Cons(ParseRequest, Nil) && !r.ctl.done && !r.ctl.draining
  {
  }

  // ---- a request has been parsed ----------------------------------------------

  /** A request for a CONNECT target or with an absolute target goes to that target itself. */
  lemma DirectMoves(r: Relay, sh: Shared, e: Event, req: Req)
    requires Ends(r, e, ParseRequest) && e.outcome == Parsed(req) && !req.target.Routed?
    ensures var st := Act(r, sh, e);
            && st.r.peer == r.peer && st.sh.streams == sh.streams && st.sh.stats.requests == sh.stats.requests + 1
            && match req.target
               case Tunnel(Some(ep)) =>
                 Issued(r, st.r, e.index, Connect(ForTunnel, ep), Forward) && st.sh.pool == sh.pool
               case Absolute(Some(ep)) =>
                 Issued(r, st.r, e.index, Connect(ForRequest(req.hasBody), ep), Forward) && st.sh.pool == sh.pool
               case _ => Errs(r, sh, st, e.index, Forward)
  {
  }

  /** What a routed request comes to, in a relay whose other fields are as in `r`. */
  predicate Routes(r: Relay, sh: Shared, st: State, i: nat, id: string, hasBody: bool)
    requires i < Length(r.ctl.pending)
  {
    var k := Chosen(sh.pool, id);
    if id == "" || k == |sh.pool.entries| then st.r.peer == r.peer && Errs(r, sh, st, i, Forward)
    else if sh.pool.entries[k].be.proto == Tcp && sh.pool.entries[k].idle != [] then
      var be, idle := sh.pool.entries[k].be, sh.pool.entries[k].idle;
      && Issued(r, st.r, i, WriteRequest(true), Forward)
      && st.r.peer == Peer(Stream(idle[0]), be, true) && st.r.ex.head && st.r.ex.body == hasBody
      && st.sh.pool.entries == sh.pool.entries[k := Entry(be, idle[1..])]
    else
      && Issued(r, st.r, i, Connect(ForRequest(hasBody), sh.pool.entries[k].be), Forward)
      && st.r.peer == r.peer && st.sh.pool.entries == sh.pool.entries
  }

  lemma PoolRoutes(r: Relay, sh: Shared, i: nat, r1: Relay, sh1: Shared, id: string, hasBody: bool)
    requires i < Length(r.ctl.pending) && id != "" && sh1.pool == sh.pool && sh1.streams == sh.streams
    requires sh1.stats.respErr == sh.stats.respErr && sh1.stats.localErrors == sh.stats.localErrors
    requires r1.peer == r.peer && r1.ctl == r.ctl.(pending := Without(r.ctl.pending, i), phase := Forward)
    ensures var st := PoolConnect(r1, sh1, id, hasBody);
            && Routes(r, sh, st, i, id, hasBody)
            && st.sh.streams == sh.streams && st.sh.stats.requests == sh1.stats.requests
  {
  }

  /** A routed request takes the stream that waits first at the endpoint whose turn it is; or connects to that
      endpoint; or fails when there is no route or no endpoint. */
  lemma RoutedMoves(r: Relay, sh: Shared, e: Event, req: Req, id: string)
    requires Ends(r, e, ParseRequest) && e.outcome == Parsed(req) && req.target == Routed(id)
    ensures var st := Act(r, sh, e);
            && st.sh.streams == sh.streams && st.sh.stats.requests == sh.stats.requests + 1
            && Routes(r, sh, st, e.index, id, req.hasBody)
  {
    var r1, sh1 := BeginExchange(Drop(r, e.index), req), CountRequest(sh);
    assert Act(r, sh, e) == Dispatch(r1, sh1, req);
    if id != "" { PoolRoutes(r, sh, e.index, r1, sh1, id, req.hasBody); }
  }

  // ---- a backend has been reached ---------------------------------------------

  /** A new stream is the backend; what is written to it depends on what it is for. */
  lemma ConnectedMoves(r: Relay, sh: Shared, e: Event, use: ConnectUse, ep: Endpoint)
    requires Ends(r, e, Connect(use, ep)) && e.outcome.Connected? && (use.ForRetry? ==> r.ex.head)
    ensures var st, s := Act(r, sh, e), sh.streams.next;
            && st.sh.pool == sh.pool
            && st.sh.streams.next == s + 1 && st.sh.streams.origin == sh.streams.origin[s := ep]
            && match use
               case ForTunnel =>
                 && Issued(r, st.r, e.index, WriteTunnelOk, r.ctl.phase)
                 && st.r.peer.backend == Stream(s) && st.r.peer.endpoint == ep
               case ForRequest(hasBody) =>
                 && Issued(r, st.r, e.index, WriteRequest(true), r.ctl.phase)
                 && st.r.peer == Peer(Stream(s), ep, e.outcome.fromPool) && st.r.ex.head && st.r.ex.body == hasBody
               case ForRetry =>
                 && Issued(r, st.r, e.index, WriteRequest(false), r.ctl.phase)
                 && st.r.peer == Peer(Stream(s), ep, false)
  {
  }

  lemma UnreachedMoves(r: Relay, sh: Shared, e: Event, use: ConnectUse, ep: Endpoint)
    requires Ends(r, e, Connect(use, ep)) && e.outcome.Failed?
    ensures var st := Act(r, sh, e);
            Errs(r, sh, st, e.index, r.ctl.phase) && st.r.peer == r.peer && st.sh.streams == sh.streams
  {
  }

  // ---- the request has been written -------------------------------------------

  /** The relay has no backend any more; the stream it had, if any, has been shut down and dropped. */
  predicate Dropped(r: Relay, sh: Shared, st: State) {
    && st.r.peer == r.peer.(backend := Null)
    && st.sh.streams == if r.peer.backend.Null? then sh.streams
                        else sh.streams.(shut := sh.streams.shut + {r.peer.backend.id},
                                         gone := sh.streams.gone + multiset{r.peer.backend.id})
  }

  /** On to the response; or, once, to the same endpoint again, if the stream was a pooled one and the request
      has no body; or to an error. */
  lemma WrittenMoves(r: Relay, sh: Shared, e: Event, retryAllowed: bool)
    requires Ends(r, e, WriteRequest(retryAllowed)) && r.peer.backend.Stream?
    ensures var st := Act(r, sh, e);
            && st.sh.pool == sh.pool
            && if e.outcome.Ok? then
                 && Issued(r, st.r, e.index, ParseResponse, Response) && st.r.peer == r.peer
                 && !st.r.ex.head && !st.r.ex.body && st.sh.streams == sh.streams
               else if retryAllowed && r.peer.fromPool && !r.ex.body then
                 Issued(r, st.r, e.index, Connect(ForRetry, r.peer.endpoint), r.ctl.phase) && Dropped(r, sh, st)
               else Errs(r, sh, st, e.index, r.ctl.phase) && Dropped(r, sh, st)
  {
  }

  // ---- the response -----------------------------------------------------------

  /** A response is written on: as the answer to an upgrade if it is one, and otherwise with its body unless
      the request was HEAD; a response that does not come is an error. */
  lemma ResponseMoves(r: Relay, sh: Shared, e: Event)
    requires Ends(r, e, ParseResponse)
    ensures var st := Act(r, sh, e);
            && st.sh.pool == sh.pool
            && if e.outcome.Failed? then Errs(r, sh, st, e.index, r.ctl.phase) && Dropped(r, sh, st)
               else
                 && st.r.peer == r.peer && st.sh.streams == sh.streams
                 && Issued(r, st.r, e.index,
                           if r.ex.upgrade && e.outcome.status == 101 then WriteUpgrade
                           else WriteResponse(e.outcome.keepAlive, e.outcome.hasBody && !r.ex.isHead), r.ctl.phase)
  {
  }

  /** The same group, host and port. */
  predicate SamePlace(a: Endpoint, b: Endpoint) {
    (a.id, a.host, a.port) == (b.id, b.host, b.port)
  }

  /** The first queue of the same server. */
  predicate FirstQueue(entries: seq<Entry>, ep: Endpoint, k: nat) {
    k < |entries| && SamePlace(entries[k].be, ep) && forall j :: 0 <= j < k ==> !SamePlace(entries[j].be, ep)
  }

  /** A stream that is kept goes to the back of the first queue of its server, if that holds fewer than eight;
      otherwise it is dropped, and so is every HTTP/3 stream. */
  lemma KeptMoves(r: Relay, sh: Shared, e: Event, hasBody: bool, k: nat)
    requires Ends(r, e, WriteResponse(true, hasBody)) && r.peer.backend.Stream?
    ensures var st, s := Act(r, sh, e), r.peer.backend.id;
            && st.r.peer == r.peer.(backend := Null)
            && (r.peer.endpoint.proto == Tcp && FirstQueue(sh.pool.entries, r.peer.endpoint, k) &&
                |sh.pool.entries[k].idle| < 8 ==>
                  && st.sh.streams == sh.streams && st.sh.pool.rr == sh.pool.rr
                  && st.sh.pool.entries ==
                       sh.pool.entries[k := Entry(sh.pool.entries[k].be, sh.pool.entries[k].idle + [s])])
            && (r.peer.endpoint.proto == Quic || (forall j :: !FirstQueue(sh.pool.entries, r.peer.endpoint, j)) ||
                (FirstQueue(sh.pool.entries, r.peer.endpoint, k) && |sh.pool.entries[k].idle| >= 8) ==>
                  st.sh.pool == sh.pool && st.sh.streams == sh.streams.(gone := sh.streams.gone + multiset{s}))
  {
    var n := FindServer(sh.pool.entries, r.peer.endpoint);
    if n < |sh.pool.entries| { assert FirstQueue(sh.pool.entries, r.peer.endpoint, n); }
  }

  /** A stream that is not kept is shut down, and the pool stays as it was. */
  lemma ClosedMoves(r: Relay, sh: Shared, e: Event, hasBody: bool)
    requires Ends(r, e, WriteResponse(false, hasBody))
    ensures var st := Act(r, sh, e); Dropped(r, sh, st) && st.sh.pool == sh.pool
  {
  }

  /** An error answer touches neither the backend nor the pool. */
  lemma ErrorMoves(r: Relay, sh: Shared, e: Event)
    requires Ends(r, e, WriteError)
    ensures var st := Act(r, sh, e); st.r.peer == r.peer && st.sh == sh
  {
  }

  // ---- bridges begin, relays end ----------------------------------------------

  /** Both sides are shut down, once, and nothing is issued. */
  predicate Tears(r: Relay, sh: Shared, st: State, left: Ops) {
    && st.r.ctl.pending == left && st.sh.pool == sh.pool
    && if r.ctl.done then st.r.ctl == r.ctl.(pending := left) && st.r.peer == r.peer && st.sh == sh
       else st.r.ctl.done && st.r.ctl.phase == Closed && st.r.ctl.fin != NotSent && Dropped(r, sh, st)
  }

  /** When the answer to a tunnel or an upgrade has been written, a read is pending on each side. */
  lemma BridgeMoves(r: Relay, sh: Shared, e: Event, op: Op)
    requires Ends(r, e, op) && (op == WriteTunnelOk || op == WriteUpgrade) && r.peer.backend.Stream?
    ensures var st := Act(r, sh, e);
            if e.outcome.Failed? then Tears(r, sh, st, Without(r.ctl.pending, e.index))
            else
              && st.r.ctl == r.ctl.(phase := Bridge, pending :=
                   Cons(PumpRead(Down), Cons(PumpRead(Up), Without(r.ctl.pending, e.index))))
              && st.r.peer.backend == r.peer.backend && st.sh.pool == sh.pool
  {
  }

  /** A request that cannot be parsed, and an idle client, end the relay. */
  lemma EndMoves(r: Relay, sh: Shared, e: Event)
    requires (Ends(r, e, ParseRequest) && e.outcome.Failed?) || e.Timer?
    ensures Tears(r, sh, Act(r, sh, e), if e.Timer? then r.ctl.pending else Without(r.ctl.pending, e.index))
  {
  }

  /** A graceful close marks a live relay, and sends the FIN at once while it waits for a request. */
  lemma GracefulMoves(r: Relay, sh: Shared, e: Event)
    requires e.Graceful?
    ensures var st := Act(r, sh, e);
            && st.sh == sh && st.r.peer == r.peer && st.r.ctl.pending == r.ctl.pending && st.r.ctl.phase == r.ctl.phase
            && st.r.ctl.done == r.ctl.done
            && (r.ctl.done ==> st.r == r)
            && (!r.ctl.done ==> st.r.ctl.draining)
            && (!r.ctl.done ==> st.r.ctl.fin == if r.ctl.phase == Request then SentEarly else r.ctl.fin)
  {
  }
}
