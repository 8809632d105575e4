/**
  Which backend streams hold unread bytes, seen from the relays: `clean` is a set of streams with
  nothing unread, and `ends` says of a relay that the response it is forwarding will be read to its end.
 */
module RelayRest {
  import opened Common
  import opened RelayModel
  import opened RelayInvariant
  import opened RelaySteps
  import opened RelayShared
  import opened RelaySafety

  predicate OnTcp(r: Relay) {
    r.peer.backend.Stream? && r.peer.endpoint.proto == Tcp
  }

  /** Before a response the stream is clean; a response that keeps its connection is read to its end. */
  predicate Rested(r: Relay, clean: set<StreamId>, ends: bool) {
    OnTcp(r) && r.ctl.pending.Cons? ==>
      match r.ctl.pending.op
      case WriteRequest(_) => r.peer.backend.id in clean
      case ParseResponse => r.peer.backend.id in clean
      case WriteResponse(keepAlive, _) => keepAlive ==> ends
      case _ => true
  }

  predicate EntryRested(e: Entry, clean: set<StreamId>) {
    forall i :: 0 <= i < |e.idle| ==> e.idle[i] in clean
  }

  predicate IdleRested(entries: seq<Entry>, clean: set<StreamId>) {
    forall k :: 0 <= k < |entries| ==> EntryRested(entries[k], clean)
  }

  /** The relay and the pool are rested. */
  predicate AllRested(r: Relay, entries: seq<Entry>, clean: set<StreamId>, ends: bool) {
    Rested(r, clean, ends) && IdleRested(entries, clean)
  }

  lemma IdleGrows(entries: seq<Entry>, clean: set<StreamId>, clean': set<StreamId>)
    requires IdleRested(entries, clean) && clean <= clean'
    ensures IdleRested(entries, clean')
  {
    forall k | 0 <= k < |entries|
      ensures EntryRested(entries[k], clean')
    {
      assert EntryRested(entries[k], clean);
    }
  }

  /** Only the relay's own stream may become unclean, and it is in no queue. */
  lemma IdleKeeps(r: Relay, sh: Shared, clean: set<StreamId>, clean': set<StreamId>)
    requires IdleRested(sh.pool.entries, clean) && Alone(r, sh) && r.peer.backend.Stream?
    requires clean - {r.peer.backend.id} <= clean'
    ensures IdleRested(sh.pool.entries, clean')
  {
    var s := r.peer.backend.id;
    forall k | 0 <= k < |sh.pool.entries|
      ensures EntryRested(sh.pool.entries[k], clean')
    {
      IdleHas(sh.pool.entries, k, s);
      assert EntryRested(sh.pool.entries[k], clean);
      assert s !in multiset(sh.pool.entries[k].idle);
      var idle := sh.pool.entries[k].idle;
      assert forall i :: 0 <= i < |idle| ==> idle[i] in multiset(idle);
    }
  }

  // ---- one callback -----------------------------------------------------------

  lemma UseIdleRested(r: Relay, sh: Shared, k: nat, hasBody: bool, clean: set<StreamId>, ends: bool)
    requires IdleRested(sh.pool.entries, clean) && k < |sh.pool.entries| && sh.pool.entries[k].idle != []
    requires r.ctl.pending.Nil?
    ensures var e := sh.pool.entries[k];
            var st := UseBackend(r, sh.(pool := Turn(Dequeue(sh.pool, k))), e.idle[0], e.be, true, hasBody);
            AllRested(st.r, st.sh.pool.entries, clean, ends)
  {
    var e := sh.pool.entries[k];
    assert EntryRested(e, clean);
    assert EntryRested(e.(idle := e.idle[1..]), clean);
    var entries' := sh.pool.entries[k := e.(idle := e.idle[1..])];
    assert forall j :: 0 <= j < |entries'| ==> EntryRested(entries'[j], clean);
  }

  lemma PoolConnectRested(r: Relay, sh: Shared, id: string, hasBody: bool, clean: set<StreamId>, ends: bool)
    requires IdleRested(sh.pool.entries, clean) && r.ctl.pending.Nil? && r.peer.backend.Null?
    ensures var st := PoolConnect(r, sh, id, hasBody); AllRested(st.r, st.sh.pool.entries, clean, ends)
  {
    var k := Chosen(sh.pool, id);
    if k < |sh.pool.entries| && sh.pool.entries[k].be.proto == Tcp && sh.pool.entries[k].idle != [] {
      UseIdleRested(r, sh, k, hasBody, clean, ends);
    }
  }

  lemma DispatchRested(r: Relay, sh: Shared, req: Req, clean: set<StreamId>, ends: bool)
    requires IdleRested(sh.pool.entries, clean) && r.ctl.pending.Nil? && r.peer.backend.Null?
    ensures var st := Dispatch(r, sh, req); AllRested(st.r, st.sh.pool.entries, clean, ends)
  {
    if req.target.Routed? { PoolConnectRested(r, sh, req.target.backendId, req.hasBody, clean, ends); }
  }

  lemma ParsedRested(r: Relay, sh: Shared, req: Req, clean: set<StreamId>, ends: bool)
    requires IdleRested(sh.pool.entries, clean) && r.ctl.pending.Nil? && r.peer.backend.Null?
    ensures var st := OnParsed(r, sh, req); AllRested(st.r, st.sh.pool.entries, clean, ends)
  {
    DispatchRested(BeginExchange(r, req), CountRequest(sh), req, clean, ends);
  }

  lemma ConnectedRested(r: Relay, sh: Shared, use: ConnectUse, ep: Endpoint, fromPool: bool,
                        clean: set<StreamId>, ends: bool)
    requires IdleRested(sh.pool.entries, clean) && r.ctl.pending.Nil? && sh.streams.next in clean
    ensures var st := OnConnected(r, sh, use, ep, fromPool); AllRested(st.r, st.sh.pool.entries, clean, ends)
  {
  }

  lemma RequestWrittenRested(r: Relay, sh: Shared, retryAllowed: bool, ok: bool, clean: set<StreamId>, ends: bool)
    requires IdleRested(sh.pool.entries, clean) && r.ctl.pending.Nil? && (OnTcp(r) ==> r.peer.backend.id in clean)
    ensures var st := OnRequestWritten(r, sh, retryAllowed, ok); AllRested(st.r, st.sh.pool.entries, clean, ends)
  {
    CloseKeepsRest(r.(ex := r.ex.(attempts := MarkFailed(r.ex.attempts))), sh);
  }

  lemma ResponseRested(r: Relay, sh: Shared, o: Outcome, clean: set<StreamId>, ends: bool)
    requires IdleRested(sh.pool.entries, clean) && r.ctl.pending.Nil? && (o.Answered? || o.Failed?)
    requires OnTcp(r) && o.Answered? && o.keepAlive ==> ends
    ensures var st := OnResponse(r, sh, o); AllRested(st.r, st.sh.pool.entries, clean, ends)
  {
    CloseKeepsRest(r, sh);
  }

  lemma EnqueueRested(entries: seq<Entry>, k: nat, s: StreamId, clean: set<StreamId>)
    requires IdleRested(entries, clean) && k < |entries| && s in clean
    ensures IdleRested(entries[k := entries[k].(idle := entries[k].idle + [s])], clean)
  {
    assert EntryRested(entries[k], clean);
    var e := entries[k].(idle := entries[k].idle + [s]);
    var entries' := entries[k := e];
    assert EntryRested(e, clean);
    assert forall j :: 0 <= j < |entries'| ==> EntryRested(entries'[j], clean);
  }

  lemma FinishRested(r: Relay, sh: Shared, keepAlive: bool, clean: set<StreamId>)
    requires IdleRested(sh.pool.entries, clean) && (OnTcp(r) && keepAlive ==> r.peer.backend.id in clean)
    ensures IdleRested(FinishBackend(r, sh, keepAlive).sh.pool.entries, clean)
  {
    if r.peer.backend.Stream? && keepAlive {
      var k := Slot(sh.pool, r.peer.endpoint);
      if k < |sh.pool.entries| { EnqueueRested(sh.pool.entries, k, r.peer.backend.id, clean); }
    }
  }

  lemma ResponseWrittenRested(r: Relay, sh: Shared, keepAlive: bool, clean: set<StreamId>, ends: bool)
    requires IdleRested(sh.pool.entries, clean) && (OnTcp(r) && keepAlive ==> r.peer.backend.id in clean)
    ensures var st := OnResponseWritten(r, sh, keepAlive); AllRested(st.r, st.sh.pool.entries, clean, ends)
  {
    FinishRested(r, sh, keepAlive, clean);
    ResponseWrittenResult(r, sh, keepAlive);
  }

  lemma OthersRested(r: Relay, sh: Shared, op: Op, o: Outcome, clean: set<StreamId>, ends: bool)
    requires IdleRested(sh.pool.entries, clean) && Fits(op, o)
    requires op.WriteTunnelOk? || op.WriteUpgrade? || op.WriteError? || op.DrainRead? || IsPump(op)
    requires (op.WriteError? || op.DrainRead? ==> r.peer.backend.Null?)
    requires r.ctl.pending.Cons? ==> IsPump(r.ctl.pending.op) && IsPump(op)
    ensures var st := OnComplete(r, sh, op, o); AllRested(st.r, st.sh.pool.entries, clean, ends)
  {
  }

  // ---- one event --------------------------------------------------------------

  /** How an event may change which streams are clean, for the relay it names. */
  predicate Cleans(r: Relay, sh: Shared, e: Event, clean: set<StreamId>, ends: bool, clean': set<StreamId>, ends': bool)
    requires EnabledAt(r, e)
  {
    if !e.Complete? then clean <= clean' && ends' == ends
    else
      var op := Nth(r.ctl.pending, e.index);
      if op.ParseResponse? && OnTcp(r) then
        && clean - {r.peer.backend.id} <= clean'
        && (e.outcome.Answered? && e.outcome.keepAlive && r.peer.backend.id in clean ==> ends')
      else if op.WriteResponse? && OnTcp(r) then
        && clean - {r.peer.backend.id} <= clean'
        && (op.keepAlive && ends ==> r.peer.backend.id in clean')
      else clean <= clean' && (op.Connect? && e.outcome.Connected? ==> sh.streams.next in clean')
  }

  lemma CompleteRested(r: Relay, sh: Shared, e: Event, clean: set<StreamId>, ends: bool,
                       clean': set<StreamId>, ends': bool)
    requires EnabledAt(r, e) && e.Complete? && Chained(r, r.ctl.pending.op) && e.index == 0 && Alone(r, sh)
    requires AllRested(r, sh.pool.entries, clean, ends) && Cleans(r, sh, e, clean, ends, clean', ends')
    ensures var st := OnComplete(Drop(r, 0), sh, r.ctl.pending.op, e.outcome);
            AllRested(st.r, st.sh.pool.entries, clean', ends')
  {
    var op, r0, o := r.ctl.pending.op, Drop(r, 0), e.outcome;
    if (op.ParseResponse? || op.WriteResponse?) && OnTcp(r) {
      IdleKeeps(r, sh, clean, clean');
    } else {
      IdleGrows(sh.pool.entries, clean, clean');
    }
    match op
    case ParseRequest => if o.Parsed? { ParsedRested(r0, sh, o.req, clean', ends'); }
    case Connect(use, ep) => if o.Connected? { ConnectedRested(r0, sh, use, ep, o.fromPool, clean', ends'); }
    case WriteRequest(b) => RequestWrittenRested(r0, sh, b, o.Ok?, clean', ends');
    case ParseResponse => ResponseRested(r0, sh, o, clean', ends');
    case WriteResponse(keepAlive, _) => ResponseWrittenRested(r0, sh, keepAlive, clean', ends');
    case _ => OthersRested(r0, sh, op, o, clean', ends');
  }

  lemma StepRested(r: Relay, sh: Shared, e: Event, clean: set<StreamId>, ends: bool, clean': set<StreamId>, ends': bool)
    requires LocalOk(r) && EnabledAt(r, e) && Alone(r, sh)
    requires AllRested(r, sh.pool.entries, clean, ends) && Cleans(r, sh, e, clean, ends, clean', ends')
    ensures var st := Act(r, sh, e); AllRested(st.r, st.sh.pool.entries, clean', ends')
  {
    match e
    case Complete(_, i, o) =>
      if r.ctl.pending.Cons? && !IsPump(r.ctl.pending.op) {
        assert r.ctl.pending.rest.Nil? && Length(r.ctl.pending.rest) == 0;
        assert i == 0 && Nth(r.ctl.pending, 0) == r.ctl.pending.op;
        CompleteRested(r, sh, e, clean, ends, clean', ends');
      } else {
        DropHalf(r, i);
        IdleGrows(sh.pool.entries, clean, clean');
        OthersRested(Drop(r, i), sh, Nth(r.ctl.pending, i), o, clean', ends');
      }
    case Timer(_) => IdleGrows(sh.pool.entries, clean, clean');
    case Graceful(_) => IdleGrows(sh.pool.entries, clean, clean');
  }
}
