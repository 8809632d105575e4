/** Every exchange has at most one outcome, and has one as soon as it is neither open nor a tunnel. */
module RelayVerdicts {
  import opened Common
  import opened RelayModel
  import opened RelayInvariant
  import opened RelaySteps
  import opened RelaySafety
  import opened RelayTheorems

  /** The current request has been given an outcome, is a tunnel, or is still open: exactly one of them. */
  predicate OneVerdict(r: Relay) {
    r.ex.outcomes + One(r.ex.tunnel) + Undecided(r) == One(r.ex.begun > 0)
  }

  /** The relay with a fresh request, nothing of it decided. */
  predicate Undetermined(r: Relay) {
    r.ctl.pending.Nil? && r.ex.begun > 0 && r.ex.outcomes == 0 && !r.ex.tunnel
  }

  lemma PoolConnectVerdict(r: Relay, sh: Shared, id: string, hasBody: bool)
    requires Undetermined(r)
    ensures OneVerdict(PoolConnect(r, sh, id, hasBody).r)
  {
  }

  lemma ErrorVerdict(r: Relay, sh: Shared)
    requires Undetermined(r)
    ensures OneVerdict(ReportError(r, sh).r)
  {
  }

  lemma DialVerdict(r: Relay, op: Op)
    requires Undetermined(r) && op.Connect? && !op.use.ForRetry?
    ensures OneVerdict(Issue(r, op))
  {
  }

  lemma DispatchVerdict(r: Relay, sh: Shared, req: Req)
    requires Undetermined(r)
    ensures OneVerdict(Dispatch(r, sh, req).r)
  {
    match req.target
    case Routed(id) => if id == "" { ErrorVerdict(r, sh); } else { PoolConnectVerdict(r, sh, id, req.hasBody); }
    case Tunnel(to) =>
      if to.None? { ErrorVerdict(r, sh); } else { DialVerdict(r, Connect(ForTunnel, to.value)); }
    case Absolute(to) =>
      if to.None? { ErrorVerdict(r, sh); } else { DialVerdict(r, Connect(ForRequest(req.hasBody), to.value)); }
  }

  lemma ParsedVerdict(r: Relay, sh: Shared, req: Req)
    requires r.ctl.pending.Nil?
    ensures OneVerdict(OnParsed(r, sh, req).r)
  {
    DispatchVerdict(BeginExchange(r, req), CountRequest(sh), req);
  }

  lemma ConnectVerdict(r: Relay, sh: Shared, use: ConnectUse, ep: Endpoint, o: Outcome)
    requires Undetermined(r) && Fits(Connect(use, ep), o) && (use.ForRetry? ==> r.ex.head)
    ensures OneVerdict(OnComplete(r, sh, Connect(use, ep), o).r)
  {
  }

  lemma BackendVerdict(r: Relay, sh: Shared, op: Op, o: Outcome)
    requires Undetermined(r) && Fits(op, o) && (op.WriteRequest? || op.ParseResponse?)
    ensures var st := OnComplete(r, sh, op, o); !st.sh.crashed ==> OneVerdict(st.r)
  {
  }

  lemma SettledVerdict(r: Relay, sh: Shared, op: Op, o: Outcome)
    requires OneVerdict(r) && r.ctl.pending.Nil? && Fits(op, o)
    requires op.WriteTunnelOk? || op.WriteUpgrade? || op.WriteResponse? || op.WriteError? || op.DrainRead?
    ensures OneVerdict(OnComplete(r, sh, op, o).r)
  {
    if op.WriteResponse? { ResponseWrittenResult(r, sh, op.keepAlive); }
  }

  lemma PumpVerdict(r: Relay, sh: Shared, op: Op, o: Outcome)
    requires OneVerdict(r) && Fits(op, o) && IsPump(op) && (r.ctl.pending.Cons? ==> IsPump(r.ctl.pending.op))
    ensures OneVerdict(OnComplete(r, sh, op, o).r)
  {
  }

  lemma CompleteVerdict(r: Relay, sh: Shared, op: Op, o: Outcome)
    requires Chained(r, op) && OneVerdict(r) && Fits(op, o)
    ensures var st := OnComplete(Drop(r, 0), sh, op, o); !st.sh.crashed ==> OneVerdict(st.r)
  {
    var r0 := Drop(r, 0);
    if op.ParseRequest? {
      if o.Parsed? { ParsedVerdict(r0, sh, o.req); }
    } else if op.Connect? {
      ConnectVerdict(r0, sh, op.use, op.ep, o);
    } else if op.WriteRequest? || op.ParseResponse? {
      BackendVerdict(r0, sh, op, o);
    } else {
      SettledVerdict(r0, sh, op, o);
    }
  }

  lemma StepVerdict(r: Relay, sh: Shared, e: Event)
    requires LocalOk(r) && OneVerdict(r) && EnabledAt(r, e)
    ensures var st := Act(r, sh, e); !st.sh.crashed ==> OneVerdict(st.r)
  {
    if e.Complete? {
      var op := Nth(r.ctl.pending, e.index);
      if r.ctl.pending.Cons? && !IsPump(r.ctl.pending.op) {
        assert r.ctl.pending.rest.Nil? && Length(r.ctl.pending.rest) == 0;
        assert e.index == 0 && op == r.ctl.pending.op;
        CompleteVerdict(r, sh, op, e.outcome);
      } else {
        DropHalf(r, e.index);
        PumpVerdict(Drop(r, e.index), sh, op, e.outcome);
      }
    }
  }

  predicate Verdicts(w: World) {
    forall k :: 0 <= k < |w.relays| ==> OneVerdict(w.relays[k])
  }

  lemma {:induction false} ExecVerdicts(w: World, run: seq<Event>)
    requires Inv(w) && Verdicts(w) && Legal(w, run)
    ensures Exec(w, run).sh.crashed || Verdicts(Exec(w, run))
    decreases run
  {
    if run != [] {
      var e, w1 := run[0], Next(w, run[0]);
      StepInv(w, e);
      if !e.Accept? { StepVerdict(w.relays[e.relay], w.sh, e); }
      if w1.sh.crashed {
        assert run[1..] == [];
      } else {
        ExecVerdicts(w1, run[1..]);
      }
    }
  }

  lemma RunVerdicts(w0: World, run: seq<Event>)
    requires Initial(w0) && Legal(w0, run)
    ensures Exec(w0, run).sh.crashed || Verdicts(Exec(w0, run))
  {
    InitialInv(w0);
    InitialVerdicts(w0);
    ExecVerdicts(w0, run);
  }

  lemma InitialVerdicts(w0: World)
    requires Initial(w0)
    ensures Verdicts(w0)
  {
  }

  lemma ReachableVerdicts(w: World)
    requires Reachable(w)
    ensures Verdicts(w)
  {
    var w0, run :| Initial(w0) && Legal(w0, run) && Exec(w0, run) == w;
    RunVerdicts(w0, run);
  }

  /** In every reachable state a relay's current request has counted at most one outcome, and none
      exactly while it is open, when it has become a tunnel, or when there has been no request yet. */
  lemma OneOutcome(w: World, k: nat)
    requires Reachable(w) && k < |w.relays|
    ensures var r := w.relays[k];
            && r.ex.outcomes <= 1
            && (r.ex.outcomes == 0 <==> r.ex.begun == 0 || r.ex.tunnel || Undecided(r) == 1)
            && !(r.ex.tunnel && Undecided(r) == 1)
  {
    ReachableVerdicts(w);
    assert OneVerdict(w.relays[k]);
  }
}
