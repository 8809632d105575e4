/** What a relay does next, over every run: when it goes back for another request, how a bridge goes on and
    how a client is drained, in terms of the events of the run. */
module RelayLoop {
  import opened Common
  import opened RelayModel
  import opened RelayInvariant
  import opened RelaySteps
  import opened RelaySafety
  import opened RelayTheorems

  // ---- the request being served -----------------------------------------------

  /** The last request that relay `k` has parsed. */
  function LastRequest(run: seq<Event>, k: nat): Option<Req> {
    if run == [] then None
    else
      var e := run[|run| - 1];
      if e.Complete? && e.relay == k && e.outcome.Parsed? then Some(e.outcome.req)
      else LastRequest(run[..|run| - 1], k)
  }

  /** The relay remembers what that request asked for; before the first one it has done nothing else. */
  predicate Remembers(r: Relay, last: Option<Req>) {
    match last
    case None => r.ctl.pending.Nil? || r.ctl.pending == Cons(ParseRequest, Nil)
    case Some(req) => r.ex.keepAlive == req.keepAlive && r.ex.upgrade == req.upgrade && r.ex.isHead == req.isHead
  }

  predicate SameRequest(ex: Exchange, ex': Exchange) {
    ex'.keepAlive == ex.keepAlive && ex'.upgrade == ex.upgrade && ex'.isHead == ex.isHead
  }

  lemma ParsedRemembers(r: Relay, sh: Shared, req: Req)
    ensures var ex := OnParsed(r, sh, req).r.ex;
            ex.keepAlive == req.keepAlive && ex.upgrade == req.upgrade && ex.isHead == req.isHead
  {
    DispatchRemembers(BeginExchange(r, req), CountRequest(sh), req);
  }

  lemma DispatchRemembers(r: Relay, sh: Shared, req: Req)
    ensures SameRequest(r.ex, Dispatch(r, sh, req).r.ex)
  {
    if req.target.Routed? { ConnectRemembers(r, sh, req.target.backendId, req.hasBody); }
  }

  lemma ConnectRemembers(r: Relay, sh: Shared, id: string, hasBody: bool)
    ensures SameRequest(r.ex, PoolConnect(r, sh, id, hasBody).r.ex)
  {
  }

  lemma ConnectedRemembers(r: Relay, sh: Shared, op: Op, o: Outcome)
    requires Fits(op, o) && op.Connect?
    ensures SameRequest(r.ex, OnComplete(r, sh, op, o).r.ex)
  {
  }

  lemma BackendRemembers(r: Relay, sh: Shared, op: Op, o: Outcome)
    requires Fits(op, o) && (op.WriteRequest? || op.ParseResponse?)
    ensures SameRequest(r.ex, OnComplete(r, sh, op, o).r.ex)
  {
  }

  lemma ClientRemembers(r: Relay, sh: Shared, op: Op, o: Outcome)
    requires Fits(op, o) && (op.WriteTunnelOk? || op.WriteUpgrade? || op.WriteResponse? || op.WriteError?)
    ensures SameRequest(r.ex, OnComplete(r, sh, op, o).r.ex)
  {
    if op.WriteResponse? { ResponseWrittenResult(r, sh, op.keepAlive); }
  }

  lemma StreamRemembers(r: Relay, sh: Shared, op: Op, o: Outcome)
    requires Fits(op, o) && (op.DrainRead? || IsPump(op))
    ensures SameRequest(r.ex, OnComplete(r, sh, op, o).r.ex)
  {
  }

  lemma OtherRemembers(r: Relay, sh: Shared, op: Op, o: Outcome)
    requires Fits(op, o) && !op.ParseRequest?
    ensures SameRequest(r.ex, OnComplete(r, sh, op, o).r.ex)
  {
    if op.Connect? { ConnectedRemembers(r, sh, op, o); }
    else if op.WriteRequest? || op.ParseResponse? { BackendRemembers(r, sh, op, o); }
    else if op.DrainRead? || IsPump(op) { StreamRemembers(r, sh, op, o); }
    else { ClientRemembers(r, sh, op, o); }
  }

  /** Before the first request there is only the parse, and teardown. */
  lemma FirstRemembers(r: Relay, sh: Shared, e: Event)
    requires EnabledAt(r, e) && !(e.Complete? && e.outcome.Parsed?) && Remembers(r, None)
    ensures Remembers(Act(r, sh, e).r, None)
  {
    if e.Complete? { assert Without(Cons(ParseRequest, Nil), 0) == Nil; }
  }

  lemma ActRemembers(r: Relay, sh: Shared, e: Event, last: Option<Req>)
    requires EnabledAt(r, e) && Remembers(r, last)
    ensures Remembers(Act(r, sh, e).r, if e.Complete? && e.outcome.Parsed? then Some(e.outcome.req) else last)
  {
    if e.Complete? {
      var r0, op := Drop(r, e.index), Nth(r.ctl.pending, e.index);
      if e.outcome.Parsed? {
        ParsedRemembers(r0, sh, e.outcome.req);
      } else if last.None? {
        FirstRemembers(r, sh, e);
      } else if !op.ParseRequest? {
        OtherRemembers(r0, sh, op, e.outcome);
      }
    }
  }

  lemma {:induction false} SplitLast(w: World, run: seq<Event>, e: Event)
    requires Legal(w, run + [e])
    ensures Legal(w, run) && Enabled(Exec(w, run), e) && Exec(w, run + [e]) == Next(Exec(w, run), e)
    decreases run
  {
    if run == [] {
      assert run + [e] == [e] && [e][1..] == [];
    } else {
      assert (run + [e])[0] == run[0] && (run + [e])[1..] == run[1..] + [e];
      SplitLast(Next(w, run[0]), run[1..], e);
    }
  }

  lemma StepRemembers(w: World, run: seq<Event>, e: Event, k: nat)
    requires Enabled(w, e) && k < |Next(w, e).relays|
    requires k < |w.relays| ==> Remembers(w.relays[k], LastRequest(run, k))
    requires k >= |w.relays| ==> LastRequest(run, k).None?
    ensures Remembers(Next(w, e).relays[k], LastRequest(run + [e], k))
  {
    assert (run + [e])[..|run|] == run;
    if !e.Accept? && e.relay == k { ActRemembers(w.relays[k], w.sh, e, LastRequest(run, k)); }
  }

  /** Relays that are not there yet have parsed nothing. */
  lemma {:induction false} NotYet(w0: World, run: seq<Event>, k: nat)
    requires Legal(w0, run) && |Exec(w0, run).relays| <= k
    ensures LastRequest(run, k).None?
    decreases |run|
  {
    if run != [] {
      var run0, e := run[..|run| - 1], run[|run| - 1];
      assert run == run0 + [e];
      SplitLast(w0, run0, e);
      NotYet(w0, run0, k);
    }
  }

  /** In every run each relay remembers the request it has parsed last. */
  lemma {:induction false} RunRemembers(w0: World, run: seq<Event>, k: nat)
    requires Initial(w0) && Legal(w0, run) && k < |Exec(w0, run).relays|
    ensures Remembers(Exec(w0, run).relays[k], LastRequest(run, k))
    decreases |run|
  {
    if run != [] {
      var run0, e := run[..|run| - 1], run[|run| - 1];
      assert run == run0 + [e];
      SplitLast(w0, run0, e);
      var w := Exec(w0, run0);
      if k < |w.relays| { RunRemembers(w0, run0, k); } else { NotYet(w0, run0, k); }
      StepRemembers(w, run0, e, k);
    }
  }

  // ---- the next request -------------------------------------------------------

  /** What a relay does when its answer has been written. */
  predicate Follows(c: Control, c': Control, h1: bool, keepAlive: bool) {
    if c.done then c'.pending == Nil && c'.phase == c.phase && c'.fin == c.fin
    else if h1 && keepAlive && !c.draining then
      c'.phase == Request && c'.pending == Cons(ParseRequest, Nil) && c'.fin == c.fin && !c'.draining
    else if h1 || c.draining then
      c'.phase == c.phase && c'.pending == Cons(DrainRead, Nil) && c'.fin != NotSent && c'.draining
    else
      c'.phase == c.phase && c'.pending == Cons(DrainRead, Nil) && c'.fin == c.fin && !c'.draining
  }

  lemma FollowsAct(r: Relay, sh: Shared, e: Event)
    requires EnabledAt(r, e) && e.Complete? && r.ctl.pending.Cons? && Chained(r, r.ctl.pending.op)
    requires r.ctl.pending.op.WriteResponse? || r.ctl.pending.op.WriteError?
    ensures Follows(r.ctl, Act(r, sh, e).r.ctl, r.h1, r.ex.keepAlive)
  {
    assert r.ctl.pending.rest.Nil? && Length(r.ctl.pending.rest) == 0 && e.index == 0;
    if r.ctl.pending.op.WriteResponse? { ResponseWrittenResult(Drop(r, 0), sh, r.ctl.pending.op.keepAlive); }
  }

  /** When an answer has been written, whatever became of the write: an HTTP/1.1 relay that is not draining
      waits for the next request exactly when the last one asked to keep the connection, and otherwise
      sends its FIN and drains the client; over HTTP/3 it drains the client without a FIN. */
  lemma GoesBackIff(w0: World, run: seq<Event>, e: Event)
    requires Initial(w0) && Legal(w0, run) && Enabled(Exec(w0, run), e) && e.Complete?
    requires var op := Nth(Exec(w0, run).relays[e.relay].ctl.pending, e.index); op.WriteResponse? || op.WriteError?
    ensures var w, last := Exec(w0, run), LastRequest(run, e.relay);
            var r, r' := w.relays[e.relay], Next(w, e).relays[e.relay];
            last.Some? && Follows(r.ctl, r'.ctl, r.h1, last.value.keepAlive)
  {
    var w := Exec(w0, run);
    var r := w.relays[e.relay];
    RunInv(w0, run);
    RunRemembers(w0, run, e.relay);
    assert LocalOk(r);
    PumpsAlone(r, e.index);
    FollowsAct(r, w.sh, e);
  }

  /** Pumps are pending only beside pumps. */
  lemma PumpsAlone(r: Relay, i: nat)
    requires LocalOk(r) && i < Length(r.ctl.pending)
    ensures IsPump(Nth(r.ctl.pending, i)) <==> IsPump(r.ctl.pending.op)
    ensures !IsPump(r.ctl.pending.op) ==> i == 0 && r.ctl.pending.rest == Nil && Chained(r, r.ctl.pending.op)
  {
    if IsPump(r.ctl.pending.op) {
      DropHalf(r, i);
    } else {
      assert r.ctl.pending.rest.Nil? && Length(r.ctl.pending.rest) == 0;
    }
  }

  // ---- bridges and drains -----------------------------------------------------

  /** The relay has been torn down, with nothing issued for it. */
  predicate Torn(r: Relay, r': Relay, i: nat)
    requires i < Length(r.ctl.pending)
  {
    && r'.ctl.done && r'.ctl.phase == Closed && r'.ctl.fin != NotSent && r'.peer.backend.Null?
    && r'.ctl.pending == Without(r.ctl.pending, i)
  }

  /** The relay goes on with `op` in place of the one that is complete. */
  predicate GoesOn(r: Relay, r': Relay, i: nat, op: Op)
    requires i < Length(r.ctl.pending)
  {
    r'.peer == r.peer && r'.ctl == r.ctl.(pending := Cons(op, Without(r.ctl.pending, i)))
  }

  function Other(d: Dir): Dir {
    if d == Up then Down else Up
  }

  /** A read of a live bridge: what came is counted as read and goes into the next write, whole; at the end
      of the stream, or on an error, the relay is torn down. */
  lemma BridgeReads(r: Relay, sh: Shared, e: Event, d: Dir)
    requires EnabledAt(r, e) && e.Complete? && Nth(r.ctl.pending, e.index) == PumpRead(d) && !r.ctl.done
    ensures var r', f := Act(r, sh, e).r, FlowOf(r, d);
            && FlowOf(r', Other(d)) == FlowOf(r, Other(d)) && FlowOf(r', d).written == f.written
            && FlowOf(r', d).read == f.read + (if e.outcome.Data? then e.outcome.bytes else [])
            && if e.outcome.Data? && e.outcome.bytes != []
               then GoesOn(r, r', e.index, PumpWrite(d, e.outcome.bytes)) else Torn(r, r', e.index)
  {
  }

  /** A write of a live bridge: what went out is counted as written; a complete write is followed by the next
      read, and any other by teardown. */
  lemma BridgeWrites(r: Relay, sh: Shared, e: Event, d: Dir, data: Bytes)
    requires EnabledAt(r, e) && e.Complete? && Nth(r.ctl.pending, e.index) == PumpWrite(d, data) && !r.ctl.done
    ensures var r', f := Act(r, sh, e).r, FlowOf(r, d);
            && FlowOf(r', Other(d)) == FlowOf(r, Other(d)) && FlowOf(r', d).read == f.read
            && FlowOf(r', d).written == f.written + (if e.outcome.Ok? then data else data[..e.outcome.accepted])
            && if e.outcome.Ok? then GoesOn(r, r', e.index, PumpRead(d)) else Torn(r, r', e.index)
  {
    assert data[..|data|] == data;
  }

  /** A read of a client that is drained: the next one follows until the stream ends or fails. */
  lemma DrainReads(r: Relay, sh: Shared, e: Event)
    requires EnabledAt(r, e) && e.Complete? && Nth(r.ctl.pending, e.index) == DrainRead && !r.ctl.done
    ensures var r' := Act(r, sh, e).r;
            if e.outcome.Data? && e.outcome.bytes != [] then GoesOn(r, r', e.index, DrainRead) else Torn(r, r', e.index)
  {
  }
}
