/** The counters are counts of what happened in the run. */
module RelayCounts {
  import opened Common
  import opened RelayModel
  import opened RelayInvariant
  import opened RelaySteps
  import opened RelaySafety

  // ---- what an event counts as ------------------------------------------------

  /** A request has been parsed. */
  predicate IsRequest(r: Relay, e: Event) {
    Completed(r, e).Some? && Completed(r, e).value.ParseRequest? && e.outcome.Parsed?
  }

  /** A backend response has been parsed, with a status in the given range. */
  predicate IsResponse(r: Relay, e: Event, failed: bool) {
    && Completed(r, e).Some? && Completed(r, e).value.ParseResponse? && e.outcome.Answered?
    && (e.outcome.status >= 400) == failed
  }

  /** A CONNECT target has been reached. */
  predicate IsTunnel(r: Relay, e: Event) {
    && Completed(r, e).Some? && Completed(r, e).value.Connect?
    && Completed(r, e).value.use.ForTunnel? && e.outcome.Connected?
  }

  /** What a step adds to the counters. */
  predicate Counted(n: Stats, n': Stats, request: bool, good: bool, bad: bool, tunnel: bool) {
    && n'.requests == n.requests + One(request)
    && n'.respOk == n.respOk + One(good)
    && n'.respErr - n'.localErrors == n.respErr - n.localErrors + One(bad)
    && n'.latCount == n.latCount + One(good) + One(bad)
    && n'.tunnels == n.tunnels + One(tunnel)
  }

  lemma DispatchCounts(r: Relay, sh: Shared, req: Req)
    ensures Counted(sh.stats, Dispatch(r, sh, req).sh.stats, false, false, false, false)
  {
    if req.target.Routed? { PoolConnectCounts(r, sh, req.target.backendId, req.hasBody); }
  }

  lemma PoolConnectCounts(r: Relay, sh: Shared, id: string, hasBody: bool)
    ensures Counted(sh.stats, PoolConnect(r, sh, id, hasBody).sh.stats, false, false, false, false)
  {
  }

  lemma ParsedCounts(r: Relay, sh: Shared, req: Req)
    ensures Counted(sh.stats, OnParsed(r, sh, req).sh.stats, true, false, false, false)
  {
    DispatchCounts(BeginExchange(r, req), CountRequest(sh), req);
  }

  lemma ConnectCounts(r: Relay, sh: Shared, use: ConnectUse, ep: Endpoint, o: Outcome)
    requires Fits(Connect(use, ep), o)
    ensures Counted(sh.stats, OnComplete(r, sh, Connect(use, ep), o).sh.stats, false, false, false,
                    use.ForTunnel? && o.Connected?)
  {
  }

  lemma ResponseCounts(r: Relay, sh: Shared, o: Outcome)
    requires Fits(ParseResponse, o)
    ensures Counted(sh.stats, OnResponse(r, sh, o).sh.stats, false,
                    o.Answered? && o.status < 400, o.Answered? && o.status >= 400, false)
  {
  }

  lemma OtherCounts(r: Relay, sh: Shared, op: Op, o: Outcome)
    requires Fits(op, o) && !op.ParseRequest? && !op.Connect? && !op.ParseResponse?
    ensures Counted(sh.stats, OnComplete(r, sh, op, o).sh.stats, false, false, false, false)
  {
    if op.WriteResponse? { ResponseWrittenResult(r, sh, op.keepAlive); }
  }

  /** Each step counts exactly what it is. */
  lemma StepCounts(r: Relay, sh: Shared, e: Event)
    requires EnabledAt(r, e)
    ensures Counted(sh.stats, Act(r, sh, e).sh.stats, IsRequest(r, e), IsResponse(r, e, false), IsResponse(r, e, true),
                    IsTunnel(r, e))
  {
    if e.Complete? {
      var r0, op := Drop(r, e.index), Nth(r.ctl.pending, e.index);
      if op.ParseRequest? {
        if e.outcome.Parsed? { ParsedCounts(r0, sh, e.outcome.req); }
      } else if op.Connect? {
        ConnectCounts(r0, sh, op.use, op.ep, e.outcome);
      } else if op.ParseResponse? {
        ResponseCounts(r0, sh, e.outcome);
      } else {
        OtherCounts(r0, sh, op, e.outcome);
      }
    }
  }

  // ---- a run ------------------------------------------------------------------

  datatype Tally = Tally(requests: nat, good: nat, bad: nat, tunnels: nat)

  function Add(t: Tally, r: Relay, e: Event): Tally {
    Tally(t.requests + One(IsRequest(r, e)), t.good + One(IsResponse(r, e, false)), t.bad + One(IsResponse(r, e, true)),
          t.tunnels + One(IsTunnel(r, e)))
  }

  /** The events of a run, counted. */
  function Sum(w: World, run: seq<Event>): Tally
    requires Legal(w, run)
    decreases run
  {
    if run == [] then Tally(0, 0, 0, 0)
    else
      var t := Sum(Next(w, run[0]), run[1..]);
      if run[0].Accept? then t else Add(t, w.relays[run[0].relay], run[0])
  }

  /** Over every run: requests parsed, responses with and without an error status, tunnels opened,
      and one latency sample for each response. */
  lemma {:induction false} RunCounts(w: World, run: seq<Event>)
    requires Legal(w, run)
    ensures var n, n', t := w.sh.stats, Exec(w, run).sh.stats, Sum(w, run);
            && n'.requests == n.requests + t.requests
            && n'.respOk == n.respOk + t.good
            && n'.respErr - n'.localErrors == n.respErr - n.localErrors + t.bad
            && n'.latCount == n.latCount + t.good + t.bad
            && n'.tunnels == n.tunnels + t.tunnels
    decreases run
  {
    if run != [] {
      var e := run[0];
      RunCounts(Next(w, e), run[1..]);
      if !e.Accept? { StepCounts(w.relays[e.relay], w.sh, e); }
    }
  }
}
