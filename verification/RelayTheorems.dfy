/** What holds of every run of a worker, for any number of relays sharing one pool. */
module RelayTheorems {
  import opened Common
  import opened RelayModel
  import opened RelayInvariant
  import opened RelaySteps
  import opened RelayShared
  import opened RelaySafety

  lemma {:induction false} Extend(w: World, run: seq<Event>, e: Event)
    requires Legal(w, run) && Enabled(Exec(w, run), e)
    ensures Legal(w, run + [e]) && Exec(w, run + [e]) == Next(Exec(w, run), e)
    decreases run
  {
    if run == [] {
      assert (run + [e])[1..] == [];
    } else {
      assert (run + [e])[1..] == run[1..] + [e];
      Extend(Next(w, run[0]), run[1..], e);
    }
  }

  /** `w` is reached by a run that dereferences no null pointer. */
  ghost predicate Reachable(w: World) {
    !w.sh.crashed && exists w0, run :: Initial(w0) && Legal(w0, run) && Exec(w0, run) == w
  }

  lemma ReachableInv(w: World)
    requires Reachable(w)
    ensures Inv(w)
  {
    var w0, run :| Initial(w0) && Legal(w0, run) && Exec(w0, run) == w;
    RunInv(w0, run);
  }

  // ---- ownership of backend streams -------------------------------------------

  /** Every stream created is in exactly one place: one relay, one idle slot, or gone. */
  lemma OnePlace(w: World, s: StreamId)
    requires Reachable(w)
    ensures Places(w, s) == if s < w.sh.streams.next then 1 else 0
    ensures s in w.sh.streams.shut ==> HeldBy(w.relays, s) == 0 && IdleSlots(w.sh.pool.entries, s) == 0
    ensures s in w.sh.streams.bridged ==> IdleSlots(w.sh.pool.entries, s) == 0
  {
    ReachableInv(w);
    if s in w.sh.streams.bridged {
      NotQueued(w.sh.pool.entries, w.sh.streams, s);
    }
  }

  lemma {:induction false} NotQueued(entries: seq<Entry>, ss: Streams, s: StreamId)
    requires EntriesOk(ss, entries) && s in ss.bridged
    ensures IdleSlots(entries, s) == 0
  {
    if entries != [] {
      assert EntryOk(ss, entries[0]);
      assert forall k :: 0 <= k < |entries[0].idle| ==> IdleOk(ss, entries[0].idle[k], entries[0].be);
      assert s !in entries[0].idle;
      NotQueued(entries[1..], ss, s);
    }
  }

  /** Two relays never share a backend, and none shares one with the pool. */
  lemma RelaysApart(w: World, i: nat, j: nat)
    requires Reachable(w) && i < |w.relays| && j < |w.relays| && w.relays[i].peer.backend.Stream?
    ensures i != j ==> w.relays[j].peer.backend != w.relays[i].peer.backend
    ensures forall k :: 0 <= k < |w.sh.pool.entries| ==> w.relays[i].peer.backend.id !in w.sh.pool.entries[k].idle
  {
    ReachableInv(w);
    if i < j { Disjoint(w, i, j); } else if j < i { Disjoint(w, j, i); }
    RelayAlone(w, i);
    var s := w.relays[i].peer.backend.id;
    forall k | 0 <= k < |w.sh.pool.entries|
      ensures s !in w.sh.pool.entries[k].idle
    {
      IdleHas(w.sh.pool.entries, k, s);
      assert multiset(w.sh.pool.entries[k].idle)[s] == 0;
    }
  }

  /** Idle queues are bounded, hold live TCP streams to their own server, and hold each once. */
  lemma QueuesOk(w: World, k: nat)
    requires Reachable(w) && k < |w.sh.pool.entries|
    ensures var e := w.sh.pool.entries[k];
            && |e.idle| <= MAX_IDLE_PER_ENDPOINT
            && (forall i :: 0 <= i < |e.idle| ==>
                  && e.idle[i] in w.sh.streams.origin
                  && SameServer(w.sh.streams.origin[e.idle[i]], e.be) && w.sh.streams.origin[e.idle[i]].proto == Tcp
                  && e.idle[i] !in w.sh.streams.shut && e.idle[i] !in w.sh.streams.bridged
                  && multiset(e.idle)[e.idle[i]] == 1)
  {
    ReachableInv(w);
    var e := w.sh.pool.entries[k];
    assert EntryOk(w.sh.streams, e);
    forall i | 0 <= i < |e.idle|
      ensures e.idle[i] !in w.sh.streams.shut && multiset(e.idle)[e.idle[i]] == 1
    {
      var s := e.idle[i];
      assert IdleOk(w.sh.streams, s, e.be);
      IdleHas(w.sh.pool.entries, k, s);
      assert s in multiset(e.idle);
      assert Places(w, s) == 1;
    }
  }

  /** `backend_` is null whenever a stream is assigned to it: no stream is lost by overwriting. */
  lemma AssignedWhenNull(w: World, e: Event)
    requires Reachable(w) && Enabled(w, e) && !e.Accept?
    ensures var r, r' := w.relays[e.relay], Next(w, e).relays[e.relay];
            r'.peer.backend.Stream? && r'.peer.backend != r.peer.backend ==> r.peer.backend.Null?
  {
    ReachableInv(w);
    AssignStep(w.relays[e.relay], w.sh, e);
  }

  lemma AssignStep(r: Relay, sh: Shared, e: Event)
    requires LocalOk(r) && EnabledAt(r, e)
    ensures var r' := Act(r, sh, e).r;
            r'.peer.backend.Stream? && r'.peer.backend != r.peer.backend ==> r.peer.backend.Null?
  {
    if e.Complete? {
      var i, op := e.index, Nth(r.ctl.pending, e.index);
      if r.ctl.pending.Cons? && !IsPump(r.ctl.pending.op) {
        assert r.ctl.pending.rest.Nil? && Length(r.ctl.pending.rest) == 0;
        assert i == 0 && op == r.ctl.pending.op;
      } else {
        DropHalf(r, i);
      }
      if op.ParseRequest? || op.Connect? {
        assert r.peer.backend.Null?;
      } else {
        OtherOps(Drop(r, i), sh, op, e.outcome);
      }
    }
  }

  lemma OtherOps(r: Relay, sh: Shared, op: Op, o: Outcome)
    requires Fits(op, o) && !op.ParseRequest? && !op.Connect?
    ensures var r' := OnComplete(r, sh, op, o).r; r'.peer.backend.Null? || r'.peer.backend == r.peer.backend
  {
  }

  // ---- phases and the client's FIN --------------------------------------------

  predicate ClientWrite(op: Op) {
    op.WriteTunnelOk? || op.WriteUpgrade? || op.WriteResponse? || op.WriteError? || (op.PumpWrite? && op.dir == Down)
  }

  /** In the request phase the only thing in flight is the parse of the next request, so the
      FIN that graceful_close sends there cuts off no response being written. */
  lemma RequestPhaseIsIdle(w: World, k: nat)
    requires Reachable(w) && k < |w.relays| && w.relays[k].ctl.phase == Request
    ensures var r := w.relays[k]; r.ctl.pending == Cons(ParseRequest, Nil) && r.peer.backend.Null? && !r.ctl.done
  {
    ReachableInv(w);
    assert LocalOk(w.relays[k]);
  }

  /** While a relay is alive, a client write in flight after the client's FIN comes from a request
      that was still being parsed when graceful_close sent the FIN, and from nothing else. */
  lemma WriteAfterFin(w: World, k: nat, i: nat)
    requires Reachable(w) && k < |w.relays| && !w.relays[k].ctl.done && i < Length(w.relays[k].ctl.pending)
    requires ClientWrite(Nth(w.relays[k].ctl.pending, i))
    ensures w.relays[k].ctl.fin != NotSent <==> w.relays[k].ctl.fin == SentEarly
  {
    ReachableInv(w);
    var r := w.relays[k];
    assert LocalOk(r);
    if r.ctl.pending.Cons? && !IsPump(r.ctl.pending.op) {
      assert r.ctl.pending.rest.Nil? && Length(r.ctl.pending.rest) == 0;
      assert Nth(r.ctl.pending, i) == r.ctl.pending.op;
    }
  }

  /** An HTTP/1.1 client is read to its end only behind a FIN of our own. */
  lemma DrainsBehindFin(w: World, k: nat)
    requires Reachable(w) && k < |w.relays| && w.relays[k].h1 && w.relays[k].ctl.pending == Cons(DrainRead, Nil)
    ensures w.relays[k].ctl.fin != NotSent && w.relays[k].ctl.draining
  {
    ReachableInv(w);
    assert LocalOk(w.relays[k]);
  }

  /** Only a torn-down relay is in the closed phase; a torn-down one may have left it again. */
  lemma ClosedIsDone(w: World, k: nat)
    requires Reachable(w) && k < |w.relays| && w.relays[k].ctl.phase == Closed
    ensures w.relays[k].ctl.done
  {
    ReachableInv(w);
    assert LocalOk(w.relays[k]);
  }

  /** The event reports success for an operation whose callback does not look at `done_`. */
  predicate Revives(r: Relay, e: Event) {
    && e.Complete? && e.index < Length(r.ctl.pending)
    && var op := Nth(r.ctl.pending, e.index);
       if op.ParseRequest? then e.outcome.Parsed?
       else (op.WriteRequest? || op.WriteTunnelOk? || op.WriteUpgrade?) && e.outcome.Ok?
  }

  lemma DispatchPhase(r: Relay, sh: Shared, req: Req)
    ensures Dispatch(r, sh, req).r.ctl.phase == r.ctl.phase
  {
  }

  lemma ParsedPhase(r: Relay, sh: Shared, req: Req)
    ensures OnParsed(r, sh, req).r.ctl.phase == Forward
  {
    DispatchPhase(BeginExchange(r, req), CountRequest(sh), req);
  }

  lemma CompletePhase(r: Relay, sh: Shared, op: Op, o: Outcome)
    requires Fits(op, o) && r.ctl.done && r.ctl.phase == Closed && !op.ParseRequest?
    ensures OnComplete(r, sh, op, o).r.ctl.phase != Closed
            <==> (op.WriteRequest? || op.WriteTunnelOk? || op.WriteUpgrade?) && o.Ok?
  {
  }

  /** The closed phase is left exactly when an operation that was in flight at teardown still
      succeeds: the parse of a request, or a write that leads on to a response or a bridge. */
  lemma ClosedLeftIff(w: World, e: Event)
    requires Reachable(w) && Enabled(w, e) && !e.Accept? && w.relays[e.relay].ctl.phase == Closed
    ensures Next(w, e).relays[e.relay].ctl.phase != Closed <==> Revives(w.relays[e.relay], e)
  {
    ClosedIsDone(w, e.relay);
    var r := w.relays[e.relay];
    if e.Complete? {
      var r0, op := Drop(r, e.index), Nth(r.ctl.pending, e.index);
      if !op.ParseRequest? {
        CompletePhase(r0, w.sh, op, e.outcome);
      } else if e.outcome.Parsed? {
        ParsedPhase(r0, w.sh, e.outcome.req);
      }
    }
  }

  // ---- requests written to backends -------------------------------------------

  function Count(a: Attempts): nat {
    match a
    case NoAttempt => 0
    case Tried(_, earlier) => 1 + Count(earlier)
  }

  /** A request is written at most twice; the second time only after a failed write on a pooled
      stream, without a body, on a stream created later.  A request with a body is written once. */
  lemma AtMostOneRetry(w: World, k: nat)
    requires Reachable(w) && k < |w.relays|
    ensures var a := w.relays[k].ex.attempts;
            && Count(a) <= 2
            && (a.Tried? && a.last.hasBody ==> a.earlier.NoAttempt?)
            && (a.Tried? && a.earlier.Tried? ==>
                  var last, first := a.last, a.earlier.last;
                  && first.pooled && first.failed && !first.hasBody
                  && !last.pooled && !last.hasBody && first.stream < last.stream)
  {
    ReachableInv(w);
    var r := w.relays[k];
    assert LocalOk(r);
    assert AttemptsOk(r.ex.attempts);
    match r.ex.attempts {
      case NoAttempt =>
      case Tried(_, NoAttempt) => assert Count(NoAttempt) == 0;
      case Tried(_, Tried(first, rest)) => assert Count(rest) == 0 && Count(Tried(first, rest)) == 1;
    }
  }

  predicate HasGroup(entries: seq<Entry>, id: string) {
    exists k :: 0 <= k < |entries| && entries[k].be.id == id
  }

  lemma {:induction false} CandidatesIff(entries: seq<Entry>, id: string, from: nat)
    requires from <= |entries|
    ensures Candidates(entries, id, from) != [] <==> exists k :: from <= k < |entries| && entries[k].be.id == id
    decreases |entries| - from
  {
    if from < |entries| { CandidatesIff(entries, id, from + 1); }
  }

  /** A routed request goes to an endpoint of its group, on an idle stream to it or by a connect to
      it; it is answered with an error exactly when no route matched or the group has no endpoint. */
  lemma RoutedToItsGroup(r: Relay, sh: Shared, req: Req)
    requires r.ctl.pending.Nil? && req.target.Routed?
    ensures var r', id := OnParsed(r, sh, req).r, req.target.backendId;
            && r'.ctl.pending.Cons?
            && (if id == "" || !HasGroup(sh.pool.entries, id) then r'.ctl.pending.op.WriteError?
                else || (r'.ctl.pending.op.WriteRequest? && r'.peer.endpoint.id == id)
                     || (r'.ctl.pending.op.Connect? && r'.ctl.pending.op.ep.id == id))
  {
    CandidatesIff(sh.pool.entries, req.target.backendId, 0);
    RoutedStep(BeginExchange(r, req), CountRequest(sh), req.target.backendId, req.hasBody);
  }

  lemma RoutedStep(r: Relay, sh: Shared, id: string, hasBody: bool)
    ensures var r' := PoolConnect(r, sh, id, hasBody).r;
            && r'.ctl.pending.Cons?
            && (if Candidates(sh.pool.entries, id) == [] then r'.ctl.pending.op.WriteError?
                else || (r'.ctl.pending.op.WriteRequest? && r'.peer.endpoint.id == id)
                     || (r'.ctl.pending.op.Connect? && r'.ctl.pending.op.ep.id == id))
  {
  }

  /** A retry connects to the very endpoint the failed stream was connected to. */
  lemma RetryToSameServer(w: World, e: Event)
    requires Reachable(w) && Enabled(w, e) && e.Complete? && w.relays[e.relay].peer.backend.Stream?
    requires w.relays[e.relay].ctl.pending.Cons? && w.relays[e.relay].ctl.pending.op.WriteRequest?
    ensures var r, r' := w.relays[e.relay], Next(w, e).relays[e.relay];
            r'.ctl.pending.Cons? && r'.ctl.pending.op.Connect? ==>
              && r.peer.backend.id in w.sh.streams.origin
              && r'.ctl.pending.op.ep == w.sh.streams.origin[r.peer.backend.id]
  {
    ReachableInv(w);
    var r := w.relays[e.relay];
    assert LocalOk(r) && Linked(r, w.sh.streams);
    RetryStep(r, w.sh, r.ctl.pending.op, e);
  }

  lemma RetryStep(r: Relay, sh: Shared, op: Op, e: Event)
    requires Chained(r, op) && op.WriteRequest? && EnabledAt(r, e) && e.Complete?
    ensures var r' := Act(r, sh, e).r;
            r'.ctl.pending.Cons? && r'.ctl.pending.op.Connect? ==> r'.ctl.pending.op.ep == r.peer.endpoint
  {
    assert Length(Nil) == 0;
  }

  // ---- the byte bridge --------------------------------------------------------

  function InFlight(ops: Ops, d: Dir): nat {
    match ops
    case Nil => 0
    case Cons(op, rest) => (if IsPump(op) && op.dir == d then 1 else 0) + InFlight(rest, d)
  }

  /** Each direction writes a prefix of what it read, and has at most one operation in flight. */
  lemma BridgeIsFaithful(w: World, k: nat, d: Dir)
    requires Reachable(w) && k < |w.relays|
    ensures FlowOf(w.relays[k], d).written <= FlowOf(w.relays[k], d).read
    ensures InFlight(w.relays[k].ctl.pending, d) <= 1
  {
    ReachableInv(w);
    var r := w.relays[k];
    assert LocalOk(r);
    assert FlowOk(FlowOf(r, d));
    match r.ctl.pending {
      case Nil =>
      case Cons(a, Nil) => assert InFlight(Nil, d) == 0;
      case Cons(a, Cons(b, rest)) =>
        assert InFlight(rest, d) == 0;
        assert InFlight(Cons(b, rest), d) <= 1;
    }
  }

  // ---- the counters -----------------------------------------------------------

  /** Requests are answered, undecided or tunnelled; responses are the backends' or local errors;
      and every stream ever created is accounted for by one connect counter. */
  lemma CountersBalance(w: World)
    requires Reachable(w)
    ensures var n := w.sh.stats;
            && n.requests == n.respOk + n.respErr + UndecidedAll(w.relays) + n.tunnels
            && n.respOk + n.respErr == n.latCount + n.localErrors
            && w.sh.streams.next == n.backendConnects + n.tunnels + n.quicReused
  {
    ReachableInv(w);
  }

  // ---- the null dereference ---------------------------------------------------

  /** An event dereferences a null `backend_` exactly when it reports success for a write whose
      backend stream teardown has closed meanwhile; an alive relay never does. */
  lemma NullBackendIff(w: World, e: Event)
    requires Reachable(w) && Enabled(w, e)
    ensures Next(w, e).sh.crashed <==> !e.Accept? && Fatal(w.relays[e.relay], e)
    ensures Next(w, e).sh.crashed ==> w.relays[e.relay].ctl.done
  {
    ReachableInv(w);
    if !e.Accept? {
      StepLocal(w.relays[e.relay], w.sh, e);
    }
  }

  // ---- draining ---------------------------------------------------------------

  predicate Stopping(r: Relay) {
    r.ctl.draining || r.ctl.done
  }

  /** Requests begun, and the one whose parse is pending. */
  function Budget(r: Relay): nat {
    r.ex.begun + if r.ctl.pending.Cons? && r.ctl.pending.op.ParseRequest? then 1 else 0
  }

  /** Both flags are monotone and the requests begun never decrease. */
  predicate Advances(r: Relay, r': Relay) {
    && (r.ctl.draining ==> r'.ctl.draining) && (r.ctl.done ==> r'.ctl.done)
    && r.ex.begun <= r'.ex.begun
    && (Stopping(r) ==> Budget(r') <= Budget(r))
  }

  lemma DispatchForward(r: Relay, sh: Shared, req: Req)
    requires r.ctl.pending.Nil?
    ensures var r' := Dispatch(r, sh, req).r;
            && r'.ctl.draining == r.ctl.draining && r'.ctl.done == r.ctl.done && r'.ex.begun == r.ex.begun
            && (r'.ctl.pending.Cons? ==> !r'.ctl.pending.op.ParseRequest?)
  {
    if req.target.Routed? {
      PoolConnectForward(r, sh, req.target.backendId, req.hasBody);
    }
  }

  lemma PoolConnectForward(r: Relay, sh: Shared, id: string, hasBody: bool)
    requires r.ctl.pending.Nil?
    ensures var r' := PoolConnect(r, sh, id, hasBody).r;
            && r'.ctl.draining == r.ctl.draining && r'.ctl.done == r.ctl.done && r'.ex.begun == r.ex.begun
            && (r'.ctl.pending.Cons? ==> !r'.ctl.pending.op.ParseRequest?)
  {
  }

  lemma ConnectForward(r: Relay, sh: Shared, use: ConnectUse, ep: Endpoint, o: Outcome)
    requires r.ctl.pending.Nil? && Fits(Connect(use, ep), o)
    ensures Advances(r, OnComplete(r, sh, Connect(use, ep), o).r)
  {
  }

  lemma ReplyForward(r: Relay, sh: Shared, op: Op, o: Outcome)
    requires Fits(op, o) && r.ctl.pending.Nil?
    requires op.WriteRequest? || op.ParseResponse? || op.WriteTunnelOk? || op.WriteUpgrade?
    ensures Advances(r, OnComplete(r, sh, op, o).r)
  {
  }

  lemma SettleForward(r: Relay, sh: Shared, op: Op, o: Outcome)
    requires Fits(op, o) && r.ctl.pending.Nil? && (op.WriteResponse? || op.WriteError? || op.DrainRead?)
    ensures Advances(r, OnComplete(r, sh, op, o).r)
  {
    if op.WriteResponse? {
      FinishKeepsRest(r, sh, op.keepAlive);
    }
  }

  lemma PumpForward(r: Relay, sh: Shared, op: Op, o: Outcome)
    requires Fits(op, o) && IsPump(op) && (r.ctl.pending.Cons? ==> IsPump(r.ctl.pending.op))
    ensures Advances(r, OnComplete(r, sh, op, o).r)
  {
  }

  lemma StepForward(r: Relay, sh: Shared, e: Event)
    requires LocalOk(r) && EnabledAt(r, e)
    ensures Advances(r, Act(r, sh, e).r)
  {
    if e.Complete? {
      var i, op := e.index, Nth(r.ctl.pending, e.index);
      var r0 := Drop(r, i);
      if r.ctl.pending.Cons? && !IsPump(r.ctl.pending.op) {
        assert r.ctl.pending.rest.Nil? && Length(r.ctl.pending.rest) == 0;
        assert i == 0 && op == r.ctl.pending.op && r0.ctl.pending.Nil?;
        CompleteForward(r, r0, sh, op, e.outcome);
      } else {
        DropHalf(r, i);
        PumpForward(r0, sh, op, e.outcome);
      }
    }
  }

  lemma CompleteForward(r: Relay, r0: Relay, sh: Shared, op: Op, o: Outcome)
    requires r.ctl.pending == Cons(op, Nil) && r0 == Drop(r, 0) && !IsPump(op) && Fits(op, o)
    ensures Advances(r, OnComplete(r0, sh, op, o).r)
  {
    if op.ParseRequest? {
      if o.Parsed? { DispatchForward(BeginExchange(r0, o.req), CountRequest(sh), o.req); }
    } else if op.Connect? {
      ConnectForward(r0, sh, op.use, op.ep, o);
    } else if op.WriteResponse? || op.WriteError? || op.DrainRead? {
      SettleForward(r0, sh, op, o);
    } else {
      ReplyForward(r0, sh, op, o);
    }
  }

  /** Once a relay drains or is torn down it enters no request phase again: of all later requests
      it begins at most the one whose parse was pending, over every continuation of the run. */
  lemma {:induction false} StopsTakingRequests(w: World, run: seq<Event>, k: nat)
    requires Inv(w) && Legal(w, run) && k < |w.relays| && Stopping(w.relays[k])
    ensures var w' := Exec(w, run);
            && k < |w'.relays|
            && Stopping(w'.relays[k]) && w.relays[k].ex.begun <= w'.relays[k].ex.begun <= Budget(w.relays[k])
    decreases run
  {
    if run != [] {
      var e, w1 := run[0], Next(w, run[0]);
      if !e.Accept? && e.relay == k {
        StepForward(w.relays[k], w.sh, e);
      }
      assert k < |w1.relays| && Advances(w.relays[k], w1.relays[k]);
      StepInv(w, e);
      if w1.sh.crashed {
        assert run[1..] == [];
      } else {
        StopsTakingRequests(w1, run[1..], k);
      }
    }
  }
}
