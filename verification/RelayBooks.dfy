/** The counters: what each callback adds to them, against what it leaves undecided. */
module RelayBooks {
  import opened Common
  import opened RelayModel
  import opened RelayInvariant
  import opened RelaySteps

  lemma TeardownStats(r: Relay, sh: Shared)
    ensures var st := Teardown(r, sh);
            && st.sh.stats == sh.stats && st.sh.streams.next == sh.streams.next && st.sh.crashed == sh.crashed
            && st.r.ctl.pending == r.ctl.pending
  {
  }

  lemma PoolConnectBooks(r: Relay, sh: Shared, r1: Relay, sh1: Shared, id: string, hasBody: bool)
    requires Undecided(r) == 0 && r1.ctl.pending.Nil?
    requires sh1.stats == sh.stats.(requests := sh.stats.requests + 1) && sh1.streams == sh.streams
    ensures var st := PoolConnect(r1, sh1, id, hasBody); Books(r, sh, st.r, st.sh)
  {
    var k := Chosen(sh1.pool, id);
    if k < |sh1.pool.entries| {
      var e := sh1.pool.entries[k];
      if e.be.proto == Tcp && e.idle != [] {
        UseIdleBooks(r, sh, r1, sh1.(pool := Turn(Dequeue(sh1.pool, k))), e.idle[0], e.be, hasBody);
      }
    }
  }

  lemma UseIdleBooks(r: Relay, sh: Shared, r1: Relay, sh1: Shared, s: StreamId, ep: Endpoint, hasBody: bool)
    requires Undecided(r) == 0 && r1.ctl.pending.Nil?
    requires sh1.stats == sh.stats.(requests := sh.stats.requests + 1) && sh1.streams == sh.streams
    ensures var st := UseBackend(r1, sh1, s, ep, true, hasBody); Books(r, sh, st.r, st.sh)
  {
  }

  lemma DispatchBooks(r: Relay, sh: Shared, r1: Relay, sh1: Shared, req: Req)
    requires Undecided(r) == 0 && r1.ctl.pending.Nil?
    requires sh1.stats == sh.stats.(requests := sh.stats.requests + 1) && sh1.streams == sh.streams
    ensures var st := Dispatch(r1, sh1, req); Books(r, sh, st.r, st.sh)
  {
    if req.target.Routed? {
      PoolConnectBooks(r, sh, r1, sh1, req.target.backendId, req.hasBody);
    }
  }

  lemma ParsedBooks(r: Relay, sh: Shared, req: Req)
    requires Chained(r, ParseRequest)
    ensures var st := OnParsed(Drop(r, 0), sh, req); Books(r, sh, st.r, st.sh)
  {
    DispatchBooks(r, sh, BeginExchange(Drop(r, 0), req), CountRequest(sh), req);
  }

  lemma ConnectBooks(r: Relay, sh: Shared, use: ConnectUse, ep: Endpoint, o: Outcome)
    requires Chained(r, Connect(use, ep)) && Fits(Connect(use, ep), o)
    ensures var st := OnComplete(Drop(r, 0), sh, Connect(use, ep), o); Books(r, sh, st.r, st.sh)
  {
  }

  lemma RequestWrittenBooks(r: Relay, sh: Shared, retryAllowed: bool, ok: bool)
    requires Chained(r, WriteRequest(retryAllowed))
    ensures var st := OnRequestWritten(Drop(r, 0), sh, retryAllowed, ok); Books(r, sh, st.r, st.sh)
  {
    CloseKeepsRest(Drop(r, 0).(ex := r.ex.(attempts := MarkFailed(r.ex.attempts))), sh);
  }

  lemma ResponseBooks(r: Relay, sh: Shared, o: Outcome)
    requires Chained(r, ParseResponse) && (o.Answered? || o.Failed?)
    ensures var st := OnResponse(Drop(r, 0), sh, o); Books(r, sh, st.r, st.sh)
  {
    CloseKeepsRest(Drop(r, 0), sh);
  }

  lemma ResponseWrittenBooks(r: Relay, sh: Shared, keepAlive: bool, hasBody: bool)
    requires Chained(r, WriteResponse(keepAlive, hasBody))
    ensures var st := OnResponseWritten(Drop(r, 0), sh, keepAlive); Books(r, sh, st.r, st.sh)
  {
  }
}
