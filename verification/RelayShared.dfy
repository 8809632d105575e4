/** What every callback does to the pool, the streams and the counters. */
module RelayShared {
  import opened Common
  import opened RelayModel
  import opened RelayInvariant
  import opened RelaySteps

  /** What an event owes the pool and the streams. */
  ghost predicate Keeps(r: Relay, sh: Shared, r': Relay, sh': Shared) {
    && SharedOk(sh') && Linked(r', sh'.streams)
    && Grows(sh.streams, r', sh'.streams) && Conserves(r, sh, r', sh')
  }

  ghost predicate Ready(r: Relay, sh: Shared) {
    SharedOk(sh) && Linked(r, sh.streams)
  }

  lemma CloseKeeps(r: Relay, sh: Shared)
    requires Ready(r, sh)
    ensures var st := CloseBackend(r, sh); Keeps(r, sh, st.r, st.sh)
  {
  }

  lemma TeardownKeeps(r: Relay, sh: Shared)
    requires Ready(r, sh)
    ensures var st := Teardown(r, sh); Keeps(r, sh, st.r, st.sh)
  {
    CloseKeeps(r.(ctl := Torn(r.ctl)), sh);
  }

  /** A step that touches no stream. */
  predicate Plain(r: Relay, sh: Shared, r': Relay, sh': Shared) {
    && r'.peer.backend == r.peer.backend && sh'.pool.entries == sh.pool.entries && sh'.streams == sh.streams
    && (r.peer.backend.Stream? ==>
          && r'.peer.endpoint == r.peer.endpoint
          && (r.peer.backend.id in sh.streams.bridged ==> r'.ctl.pending.Nil? || IsPump(r'.ctl.pending.op)))
    && (r'.ex.attempts.Tried? ==> r'.ex.attempts.last.stream < sh.streams.next)
  }

  lemma PlainKeeps(r: Relay, sh: Shared, r': Relay, sh': Shared)
    requires Ready(r, sh) && Plain(r, sh, r', sh')
    ensures Keeps(r, sh, r', sh')
  {
  }

  lemma ThenPlain(r: Relay, sh: Shared, r1: Relay, sh1: Shared, r2: Relay, sh2: Shared)
    requires Keeps(r, sh, r1, sh1) && Plain(r1, sh1, r2, sh2)
    ensures Keeps(r, sh, r2, sh2)
  {
  }

  /** `Keeps` looks only at the stream a step starts from, the queues and the streams. */
  lemma Rebase(r: Relay, sh: Shared, r1: Relay, sh1: Shared, st: State)
    requires Keeps(r1, sh1, st.r, st.sh)
    requires r1.peer.backend == r.peer.backend && sh1.pool.entries == sh.pool.entries
    requires sh1.streams == sh.streams
    ensures Keeps(r, sh, st.r, st.sh)
  {
  }

  // ---- streams enter and leave a relay ----------------------------------------

  lemma TailOk(ss: Streams, e: Entry)
    requires EntryOk(ss, e) && e.idle != []
    ensures IdleOk(ss, e.idle[0], e.be) && EntryOk(ss, e.(idle := e.idle[1..]))
  {
    assert forall i :: 0 <= i < |e.idle| - 1 ==> e.idle[1..][i] == e.idle[i + 1];
  }

  lemma DequeueCount(entries: seq<Entry>, k: nat, s: StreamId)
    requires k < |entries| && entries[k].idle != []
    ensures var e := entries[k];
            IdleSlots(entries[k := e.(idle := e.idle[1..])], s) + (if s == e.idle[0] then 1 else 0)
              == IdleSlots(entries, s)
  {
    var e := entries[k];
    assert e.idle == [e.idle[0]] + e.idle[1..];
    IdleUpdate(entries, k, e.(idle := e.idle[1..]), s);
  }

  lemma EnqueueCount(entries: seq<Entry>, k: nat, x: StreamId, s: StreamId)
    requires k < |entries|
    ensures var e := entries[k];
            IdleSlots(entries[k := e.(idle := e.idle + [x])], s) == IdleSlots(entries, s) + if s == x then 1 else 0
  {
    var e := entries[k];
    IdleUpdate(entries, k, e.(idle := e.idle + [x]), s);
  }

  /** A relay without a stream takes the head of idle queue `k`. */
  lemma DequeueKeeps(r: Relay, sh: Shared, k: nat, r': Relay, sh': Shared)
    requires Ready(r, sh) && r.peer.backend.Null?
    requires k < |sh.pool.entries| && sh.pool.entries[k].idle != []
    requires sh'.pool.entries == Dequeue(sh.pool, k).entries && sh'.streams == sh.streams
    requires var s := sh.pool.entries[k].idle[0];
             && r'.peer.backend == Stream(s) && s in sh.streams.origin && r'.peer.endpoint == sh.streams.origin[s]
             && (r'.ex.attempts.Tried? ==> r'.ex.attempts.last.stream == s)
    ensures Keeps(r, sh, r', sh')
  {
    var e := sh.pool.entries[k];
    var e' := e.(idle := e.idle[1..]);
    assert EntryOk(sh.streams, e);
    TailOk(sh.streams, e);
    forall s: StreamId {
      DequeueCount(sh.pool.entries, k, s);
    }
  }

  /** A relay without a stream receives the one just created. */
  lemma CreateKeeps(r: Relay, sh: Shared, ep: Endpoint, r': Relay, sh': Shared)
    requires Ready(r, sh) && r.peer.backend.Null?
    requires sh'.pool == sh.pool && sh'.streams == Create(sh.streams, ep)
    requires r'.peer.backend == Stream(sh.streams.next) && r'.peer.endpoint == ep
    requires r'.ex.attempts.Tried? ==> r'.ex.attempts.last.stream <= sh.streams.next
    ensures Keeps(r, sh, r', sh')
  {
    assert forall e: Entry :: EntryOk(sh.streams, e) ==> EntryOk(sh'.streams, e);
  }

  /** A relay gives its stream to idle queue `k`. */
  lemma EnqueueKeeps(r: Relay, sh: Shared, k: nat, r': Relay, sh': Shared)
    requires Ready(r, sh) && r.peer.backend.Stream? && r'.peer.backend.Null? && r'.ex.attempts == r.ex.attempts
    requires k < |sh.pool.entries| && |sh.pool.entries[k].idle| < MAX_IDLE_PER_ENDPOINT
    requires IdleOk(sh.streams, r.peer.backend.id, sh.pool.entries[k].be)
    requires sh'.pool.entries == Enqueue(sh.pool, k, r.peer.backend.id).entries && sh'.streams == sh.streams
    ensures Keeps(r, sh, r', sh')
  {
    var e := sh.pool.entries[k];
    var e' := e.(idle := e.idle + [r.peer.backend.id]);
    assert EntryOk(sh.streams, e);
    assert EntryOk(sh.streams, e');
    forall s: StreamId {
      EnqueueCount(sh.pool.entries, k, r.peer.backend.id, s);
    }
  }

  /** A relay drops its stream. */
  lemma ForgetKeeps(r: Relay, sh: Shared, r': Relay, sh': Shared)
    requires Ready(r, sh) && r.peer.backend.Stream? && r'.peer.backend.Null? && r'.ex.attempts == r.ex.attempts
    requires sh'.pool.entries == sh.pool.entries
    requires sh'.streams == sh.streams.(gone := sh.streams.gone + multiset{r.peer.backend.id})
    ensures Keeps(r, sh, r', sh')
  {
  }

  lemma ReleaseKeeps(r: Relay, sh: Shared, r': Relay)
    requires Ready(r, sh) && r.peer.backend.Stream? && r.peer.backend.id !in sh.streams.bridged
    requires r'.peer.backend.Null? && r'.ex.attempts == r.ex.attempts
    ensures var st := Release(r', sh, r.peer.endpoint, r.peer.backend.id); Keeps(r, sh, st.r, st.sh)
  {
    var k := Slot(sh.pool, r.peer.endpoint);
    var st := Release(r', sh, r.peer.endpoint, r.peer.backend.id);
    if k < |sh.pool.entries| {
      EnqueueKeeps(r, sh, k, r', st.sh);
    } else {
      ForgetKeeps(r, sh, r', st.sh);
    }
  }

  lemma FinishKeeps(r: Relay, sh: Shared, keepAlive: bool)
    requires Ready(r, sh) && (r.peer.backend.Stream? ==> r.peer.backend.id !in sh.streams.bridged)
    ensures var st := FinishBackend(r, sh, keepAlive); Keeps(r, sh, st.r, st.sh)
  {
    var r1 := r.(ex := r.ex.(head := false, body := false));
    match r.peer.backend {
      case Null => PlainKeeps(r, sh, r1, sh);
      case Stream(s) =>
        if keepAlive {
          ReleaseKeeps(r, sh, r1.(peer := r.peer.(backend := Null)));
        } else {
          CloseKeeps(r1, sh);
        }
    }
  }

  // ---- callbacks --------------------------------------------------------------

  lemma PoolConnectKeeps(r: Relay, sh: Shared, id: string, hasBody: bool)
    requires Ready(r, sh) && r.peer.backend.Null? && r.ex.attempts.NoAttempt?
    ensures var st := PoolConnect(r, sh, id, hasBody); Keeps(r, sh, st.r, st.sh)
  {
    var k := Chosen(sh.pool, id);
    var st := PoolConnect(r, sh, id, hasBody);
    if k < |sh.pool.entries| && sh.pool.entries[k].be.proto == Tcp && sh.pool.entries[k].idle != [] {
      UseIdleKeeps(r, sh, k, hasBody);
    } else {
      PlainKeeps(r, sh, st.r, st.sh);
    }
  }

  lemma UseIdleKeeps(r: Relay, sh: Shared, k: nat, hasBody: bool)
    requires Ready(r, sh) && r.peer.backend.Null? && r.ex.attempts.NoAttempt?
    requires k < |sh.pool.entries| && sh.pool.entries[k].be.proto == Tcp && sh.pool.entries[k].idle != []
    ensures var e := sh.pool.entries[k];
            var st := UseBackend(r, sh.(pool := Turn(Dequeue(sh.pool, k))), e.idle[0], e.be, true, hasBody);
            Keeps(r, sh, st.r, st.sh)
  {
    var e := sh.pool.entries[k];
    var st := UseBackend(r, sh.(pool := Turn(Dequeue(sh.pool, k))), e.idle[0], e.be, true, hasBody);
    assert EntryOk(sh.streams, e);
    TailOk(sh.streams, e);
    DequeueKeeps(r, sh, k, st.r, st.sh);
  }

  lemma DispatchKeeps(r: Relay, sh: Shared, req: Req)
    requires Ready(r, sh) && r.peer.backend.Null? && r.ex.attempts.NoAttempt?
    ensures var st := Dispatch(r, sh, req); Keeps(r, sh, st.r, st.sh)
  {
    var st := Dispatch(r, sh, req);
    if req.target.Routed? && req.target.backendId != "" {
      PoolConnectKeeps(r, sh, req.target.backendId, req.hasBody);
    } else {
      PlainKeeps(r, sh, st.r, st.sh);
    }
  }

  lemma DispatchFrom(r: Relay, sh: Shared, r1: Relay, sh1: Shared, req: Req)
    requires Ready(r, sh) && r.peer.backend.Null?
    requires r1.peer == r.peer && r1.ex.attempts.NoAttempt?
    requires sh1.streams == sh.streams && sh1.pool == sh.pool
    ensures var st := Dispatch(r1, sh1, req); Keeps(r, sh, st.r, st.sh)
  {
    DispatchKeeps(r1, sh1, req);
    Rebase(r, sh, r1, sh1, Dispatch(r1, sh1, req));
  }

  lemma ParsedKeeps(r: Relay, sh: Shared, req: Req)
    requires Ready(r, sh) && r.peer.backend.Null?
    ensures Keeps(r, sh, OnParsed(r, sh, req).r, OnParsed(r, sh, req).sh)
  {
    DispatchFrom(r, sh, BeginExchange(r, req), CountRequest(sh), req);
  }

  lemma ConnectedKeeps(r: Relay, sh: Shared, use: ConnectUse, ep: Endpoint, fromPool: bool)
    requires Ready(r, sh) && r.peer.backend.Null? && (use.ForRetry? ==> r.ex.head)
    ensures var st := OnConnected(r, sh, use, ep, fromPool); Keeps(r, sh, st.r, st.sh)
  {
    var st := OnConnected(r, sh, use, ep, fromPool);
    CreateKeeps(r, sh, ep, st.r, st.sh);
  }

  lemma RequestWrittenKeeps(r: Relay, sh: Shared, retryAllowed: bool, ok: bool)
    requires Ready(r, sh) && (r.peer.backend.Stream? ==> r.peer.backend.id !in sh.streams.bridged)
    ensures var st := OnRequestWritten(r, sh, retryAllowed, ok); Keeps(r, sh, st.r, st.sh)
  {
    var st := OnRequestWritten(r, sh, retryAllowed, ok);
    if ok {
      PlainKeeps(r, sh, st.r, st.sh);
    } else {
      var r1 := r.(ex := r.ex.(attempts := MarkFailed(r.ex.attempts)));
      CloseKeeps(r1, sh);
      var c := CloseBackend(r1, sh);
      ThenPlain(r1, sh, c.r, c.sh, st.r, st.sh);
    }
  }

  lemma ResponseKeeps(r: Relay, sh: Shared, o: Outcome)
    requires Ready(r, sh) && (o.Answered? || o.Failed?)
    requires r.peer.backend.Stream? ==> r.peer.backend.id !in sh.streams.bridged
    ensures var st := OnResponse(r, sh, o); Keeps(r, sh, st.r, st.sh)
  {
    var st := OnResponse(r, sh, o);
    if o.Failed? {
      CloseKeeps(r, sh);
      var c := CloseBackend(r, sh);
      ThenPlain(r, sh, c.r, c.sh, st.r, st.sh);
    } else {
      PlainKeeps(r, sh, st.r, st.sh);
    }
  }

  lemma ResponseWrittenKeeps(r: Relay, sh: Shared, keepAlive: bool)
    requires Ready(r, sh) && (r.peer.backend.Stream? ==> r.peer.backend.id !in sh.streams.bridged)
    ensures var st := OnResponseWritten(r, sh, keepAlive); Keeps(r, sh, st.r, st.sh)
  {
    FinishKeeps(r, sh, keepAlive);
    FinishKeepsRest(r, sh, keepAlive);
    var f := FinishBackend(r, sh, keepAlive);
    var st := OnResponseWritten(r, sh, keepAlive);
    ThenPlain(r, sh, f.r, f.sh, st.r, st.sh);
  }

  /** A bridged stream leaves the pool's reach for good: it is in no queue when it is marked. */
  lemma BridgeKeeps(r: Relay, sh: Shared)
    requires Ready(r, sh) && Alone(r, sh)
    ensures var st := BridgeMode(r, sh); Keeps(r, sh, st.r, st.sh)
  {
    if r.peer.backend.Stream? {
      var s := r.peer.backend.id;
      var ss := sh.streams.(bridged := sh.streams.bridged + {s});
      forall k | 0 <= k < |sh.pool.entries|
        ensures EntryOk(ss, sh.pool.entries[k])
      {
        IdleHas(sh.pool.entries, k, s);
        var e := sh.pool.entries[k];
        assert EntryOk(sh.streams, e);
        assert s !in multiset(e.idle);
        assert forall j :: 0 <= j < |e.idle| ==> e.idle[j] in multiset(e.idle);
      }
    }
  }

  lemma DrainKeeps(r: Relay, sh: Shared, o: Outcome)
    requires Ready(r, sh) && r.peer.backend.Null? && (o.Data? || o.Failed?)
    ensures var st := OnDrainRead(r, sh, o); Keeps(r, sh, st.r, st.sh)
  {
    var st := OnDrainRead(r, sh, o);
    TeardownKeeps(r, sh);
    if r.ctl.done || (o.Data? && o.bytes != []) {
      PlainKeeps(r, sh, st.r, st.sh);
    }
  }

  lemma PumpReadKeeps(r: Relay, sh: Shared, d: Dir, o: Outcome)
    requires Ready(r, sh) && (o.Data? || o.Failed?)
    requires r.ctl.pending.Cons? ==> IsPump(r.ctl.pending.op)
    ensures var st := OnPumpRead(r, sh, d, o); Keeps(r, sh, st.r, st.sh)
  {
    var r1 := if o.Data? then SetFlow(r, d, Reads(FlowOf(r, d), o.bytes)) else r;
    PlainKeeps(r, sh, r1, sh);
    TeardownKeeps(r1, sh);
    if o.Data? {
      PlainKeeps(r, sh, Issue(r1, PumpWrite(d, o.bytes)), sh);
    }
  }

  lemma PumpWriteKeeps(r: Relay, sh: Shared, d: Dir, data: Bytes, o: Outcome)
    requires Ready(r, sh) && (o.Ok? || (o.Cut? && o.accepted <= |data|))
    requires r.ctl.pending.Cons? ==> IsPump(r.ctl.pending.op)
    ensures var st := OnPumpWrite(r, sh, d, data, o); Keeps(r, sh, st.r, st.sh)
  {
    var r1 := SetFlow(r, d, Writes(FlowOf(r, d), data, if o.Ok? then |data| else o.accepted));
    PlainKeeps(r, sh, r1, sh);
    TeardownKeeps(r1, sh);
    PlainKeeps(r, sh, Issue(r1, PumpRead(d)), sh);
  }
}
