/** The invariant over every run of a worker, and what follows from it. */
module RelaySafety {
  import opened Common
  import opened RelayModel
  import opened RelayInvariant
  import opened RelaySteps
  import opened RelayShared
  import opened RelayBooks

  // ---- one event --------------------------------------------------------------

  /** The event finishes a write with success after teardown has taken the backend away:
      the callback goes on to use `backend_`, which is null. */
  predicate Fatal(r: Relay, e: Event) {
    && e.Complete? && e.outcome.Ok? && e.index < Length(r.ctl.pending)
    && var op := Nth(r.ctl.pending, e.index);
       (op.WriteRequest? || op.WriteTunnelOk? || op.WriteUpgrade?) && Lost(r.ctl, op)
  }

  lemma ChainLocal(r: Relay, sh: Shared, op: Op, o: Outcome)
    requires Chained(r, op) && Fits(op, o) && Linked(r, sh.streams) && !sh.crashed
    ensures var st := OnComplete(Drop(r, 0), sh, op, o);
            && (st.sh.crashed <==>
                  o.Ok? && (op.WriteRequest? || op.WriteTunnelOk? || op.WriteUpgrade?) && Lost(r.ctl, op))
            && (st.sh.crashed || LocalOk(st.r))
  {
    match op {
      case ParseRequest => if o.Failed? { TeardownLast(r, sh, op); } else { ParsedChain(r, sh, o.req); }
      case Connect(use, ep) =>
        if o.Failed? { ConnectFailedChain(r, sh, use, ep); } else { ConnectedChain(r, sh, use, ep, o.fromPool); }
      case WriteRequest(b) => if o.Ok? { RequestWrittenChain(r, sh, b); } else { RequestFailedChain(r, sh, b); }
      case ParseResponse => ResponseChain(r, sh, o);
      case WriteTunnelOk => if o.Failed? { TeardownLast(r, sh, op); } else { BridgeStarts(r, sh, op); }
      case WriteUpgrade =>
        if o.Failed? { TeardownLast(r, sh, op); } else { UpgradeStarts(r, sh); }
      case WriteResponse(keepAlive, hasBody) => ResponseWrittenChain(r, sh, keepAlive, hasBody);
      case WriteError => ErrorWrittenChain(r);
      case DrainRead => DrainChain(r, sh, o);
      case _ =>
    }
  }

  lemma UpgradeStarts(r: Relay, sh: Shared)
    requires Chained(r, WriteUpgrade) && !sh.crashed
    ensures var r0 := Drop(r, 0);
            var st := BridgeMode(r0.(peer := r0.peer.(fromPool := false)), sh);
            if Lost(r.ctl, WriteUpgrade) then st.sh.crashed else Bridged(st.r) && !st.sh.crashed
  {
    BridgeStarts(r.(peer := r.peer.(fromPool := false)), sh, WriteUpgrade);
  }

  lemma PumpLocal(r: Relay, sh: Shared, i: nat, o: Outcome)
    requires Bridged(r) && i < Length(r.ctl.pending) && Fits(Nth(r.ctl.pending, i), o)
    ensures var st := OnComplete(Drop(r, i), sh, Nth(r.ctl.pending, i), o); Bridged(st.r) && st.sh.crashed == sh.crashed
  {
    DropHalf(r, i);
    match Nth(r.ctl.pending, i) {
      case PumpRead(d) => PumpReadBridge(r, sh, i, d, o);
      case PumpWrite(d, data) => PumpWriteBridge(r, sh, i, d, data, o);
      case _ =>
    }
  }

  /** An enabled event that completes, times out or closes relay `r`. */
  predicate EnabledAt(r: Relay, e: Event) {
    !e.Accept? && (e.Complete? ==> e.index < Length(r.ctl.pending) && Fits(Nth(r.ctl.pending, e.index), e.outcome))
  }

  lemma StepLocal(r: Relay, sh: Shared, e: Event)
    requires LocalOk(r) && Linked(r, sh.streams) && !sh.crashed && EnabledAt(r, e)
    ensures var st := Act(r, sh, e); (st.sh.crashed <==> Fatal(r, e)) && (st.sh.crashed || LocalOk(st.r))
  {
    var chained := r.ctl.pending.Cons? && !IsPump(r.ctl.pending.op);
    match e {
      case Complete(_, i, o) =>
        if chained {
          assert r.ctl.pending.rest.Nil? && Length(r.ctl.pending.rest) == 0;
          assert i == 0 && Nth(r.ctl.pending, 0) == r.ctl.pending.op;
          ChainLocal(r, sh, r.ctl.pending.op, o);
        } else {
          DropHalf(r, i);
          PumpLocal(r, sh, i, o);
        }
      case Timer(_) => if chained { TeardownChain(r, sh, r.ctl.pending.op); } else { TeardownBridge(r, sh); }
      case Graceful(_) => if chained { GracefulChain(r, r.ctl.pending.op); } else { GracefulBridge(r); }
    }
  }

  lemma ChainKeeps(r: Relay, sh: Shared, op: Op, o: Outcome)
    requires Chained(r, op) && Fits(op, o) && Ready(r, sh) && Alone(r, sh)
    ensures var st := OnComplete(Drop(r, 0), sh, op, o); Keeps(Drop(r, 0), sh, st.r, st.sh)
  {
    var r0 := Drop(r, 0);
    assert Ready(r0, sh) && Alone(r0, sh);
    match op {
      case ParseRequest => if o.Failed? { TeardownKeeps(r0, sh); } else { ParsedKeeps(r0, sh, o.req); }
      case Connect(use, ep) =>
        if o.Failed? { PlainKeeps(r0, sh, ReportError(r0, sh).r, ReportError(r0, sh).sh); }
        else { ConnectedKeeps(r0, sh, use, ep, o.fromPool); }
      case WriteRequest(b) => RequestWrittenKeeps(r0, sh, b, o.Ok?);
      case ParseResponse => ResponseKeeps(r0, sh, o);
      case WriteTunnelOk => if o.Failed? { TeardownKeeps(r0, sh); } else { BridgeKeeps(r0, sh); }
      case WriteUpgrade => if o.Failed? { TeardownKeeps(r0, sh); } else { UpgradeKeeps(r0, sh); }
      case WriteResponse(keepAlive, _) => ResponseWrittenKeeps(r0, sh, keepAlive);
      case WriteError => PlainKeeps(r0, sh, r0.(ctl := AfterClientResponse(r0.ctl, r0.ex.keepAlive, r0.h1)), sh);
      case DrainRead => DrainKeeps(r0, sh, o);
      case _ =>
    }
  }

  lemma UpgradeKeeps(r: Relay, sh: Shared)
    requires Ready(r, sh) && Alone(r, sh)
    ensures var r1 := r.(peer := r.peer.(fromPool := false));
            var st := BridgeMode(r1, sh);
            Keeps(r, sh, st.r, st.sh)
  {
    var r1 := r.(peer := r.peer.(fromPool := false));
    BridgeKeeps(r1, sh);
    Rebase(r, sh, r1, sh, BridgeMode(r1, sh));
  }

  lemma ChainBooks(r: Relay, sh: Shared, op: Op, o: Outcome)
    requires Chained(r, op) && Fits(op, o)
    ensures var st := OnComplete(Drop(r, 0), sh, op, o); Books(r, sh, st.r, st.sh)
  {
    var r0 := Drop(r, 0);
    match op {
      case ParseRequest => if o.Failed? { TeardownStats(r0, sh); } else { ParsedBooks(r, sh, o.req); }
      case Connect(use, ep) => ConnectBooks(r, sh, use, ep, o);
      case WriteRequest(b) => RequestWrittenBooks(r, sh, b, o.Ok?);
      case ParseResponse => ResponseBooks(r, sh, o);
      case WriteTunnelOk => TeardownStats(r0, sh);
      case WriteUpgrade => TeardownStats(r0, sh);
      case WriteResponse(keepAlive, hasBody) => ResponseWrittenBooks(r, sh, keepAlive, hasBody);
      case WriteError =>
      case DrainRead => TeardownStats(r0, sh);
      case _ =>
    }
  }

  lemma PumpKeeps(r: Relay, sh: Shared, i: nat, o: Outcome)
    requires Bridged(r) && i < Length(r.ctl.pending) && Fits(Nth(r.ctl.pending, i), o) && Ready(r, sh)
    ensures var st := OnComplete(Drop(r, i), sh, Nth(r.ctl.pending, i), o);
            Keeps(Drop(r, i), sh, st.r, st.sh) && Books(r, sh, st.r, st.sh)
  {
    DropHalf(r, i);
    var r0 := Drop(r, i);
    assert Ready(r0, sh);
    match Nth(r.ctl.pending, i) {
      case PumpRead(d) => PumpReadKeeps(r0, sh, d, o);
      case PumpWrite(d, data) => PumpWriteKeeps(r0, sh, d, data, o);
      case _ =>
    }
    PumpBooks(r, sh, i, o);
  }

  lemma PumpBooks(r: Relay, sh: Shared, i: nat, o: Outcome)
    requires Bridged(r) && i < Length(r.ctl.pending) && Fits(Nth(r.ctl.pending, i), o)
    ensures var st := OnComplete(Drop(r, i), sh, Nth(r.ctl.pending, i), o); Books(r, sh, st.r, st.sh)
  {
    DropHalf(r, i);
    var r0 := Drop(r, i);
    match Nth(r.ctl.pending, i) {
      case PumpRead(d) =>
        TeardownStats(if o.Data? then SetFlow(r0, d, Reads(FlowOf(r0, d), o.bytes)) else r0, sh);
      case PumpWrite(d, data) =>
        TeardownStats(SetFlow(r0, d, Writes(FlowOf(r0, d), data, if o.Ok? then |data| else o.accepted)), sh);
      case _ =>
    }
  }

  lemma StepKeeps(r: Relay, sh: Shared, e: Event)
    requires LocalOk(r) && Ready(r, sh) && Alone(r, sh) && EnabledAt(r, e)
    ensures var st := Act(r, sh, e); Keeps(r, sh, st.r, st.sh) && Books(r, sh, st.r, st.sh)
  {
    var st := Act(r, sh, e);
    match e {
      case Complete(_, i, o) =>
        var r0 := Drop(r, i);
        if r.ctl.pending.Cons? && !IsPump(r.ctl.pending.op) {
          assert r.ctl.pending.rest.Nil? && Length(r.ctl.pending.rest) == 0;
          assert i == 0 && Nth(r.ctl.pending, 0) == r.ctl.pending.op;
          ChainKeeps(r, sh, r.ctl.pending.op, o);
          ChainBooks(r, sh, r.ctl.pending.op, o);
        } else {
          PumpKeeps(r, sh, i, o);
        }
        Rebase(r, sh, r0, sh, st);
      case Timer(_) => TeardownKeeps(r, sh); TeardownStats(r, sh);
      case Graceful(_) => PlainKeeps(r, sh, st.r, sh);
    }
  }

  // ---- the invariant of a worker ----------------------------------------------

  predicate RelaysOk(w: World) {
    forall k :: 0 <= k < |w.relays| ==> LocalOk(w.relays[k]) && Linked(w.relays[k], w.sh.streams)
  }

  predicate Ledger(w: World) {
    && OpenRequests(w.sh.stats) == UndecidedAll(w.relays)
    && Unexplained(w.sh.stats) == 0
    && w.sh.streams.next == Connects(w.sh.stats)
  }

  ghost predicate Inv(w: World) {
    RelaysOk(w) && SharedOk(w.sh) && Census(w) && Ledger(w)
  }

  lemma RelayAlone(w: World, k: nat)
    requires Census(w) && k < |w.relays|
    ensures Alone(w.relays[k], w.sh)
  {
    if w.relays[k].peer.backend.Stream? {
      var s := w.relays[k].peer.backend.id;
      HeldHas(w.relays, k, s);
      assert Places(w, s) <= 1;
    }
  }

  lemma AcceptInv(w: World, h1: bool)
    requires Inv(w)
    ensures Inv(w.(relays := w.relays + [Started(h1)]))
  {
    var r := Started(h1);
    var w' := w.(relays := w.relays + [r]);
    assert LocalOk(r) && Linked(r, w.sh.streams);
    forall s: StreamId
      ensures Places(w', s) == Places(w, s)
    {
      HeldAppend(w.relays, r, s);
    }
    UndecidedAppend(w.relays, r);
  }

  lemma StepCensus(w: World, k: nat, st: State)
    requires Census(w) && k < |w.relays| && Keeps(w.relays[k], w.sh, st.r, st.sh)
    ensures Census(World(w.relays[k := st.r], st.sh))
  {
    var w' := World(w.relays[k := st.r], st.sh);
    forall s: StreamId
      ensures Places(w', s) == if s < w'.sh.streams.next then 1 else 0
    {
      assert Places(w, s) == if s < w.sh.streams.next then 1 else 0;
      HeldUpdate(w.relays, k, st.r, s);
    }
  }

  /** No two relays hold the same stream. */
  lemma Disjoint(w: World, i: nat, j: nat)
    requires Census(w) && i < j < |w.relays|
    ensures w.relays[i].peer.backend.Stream? ==> w.relays[j].peer.backend != w.relays[i].peer.backend
  {
    if w.relays[i].peer.backend.Stream? {
      var s := w.relays[i].peer.backend.id;
      HeldTwo(w.relays, i, j, s);
      assert Places(w, s) <= 1;
    }
  }

  /** The other relays do not notice: no stream of theirs changes hands or is bridged. */
  lemma StepOthers(w: World, k: nat, st: State, j: nat)
    requires k < |w.relays| && j < |w.relays| && j != k
    requires Linked(w.relays[j], w.sh.streams) && Keeps(w.relays[k], w.sh, st.r, st.sh)
    requires Census(World(w.relays[k := st.r], st.sh))
    ensures Linked(w.relays[j], st.sh.streams)
  {
    var w' := World(w.relays[k := st.r], st.sh);
    var r := w.relays[j];
    if r.peer.backend.Stream? && st.r.peer.backend.Stream? {
      if j < k { Disjoint(w', j, k); } else { Disjoint(w', k, j); }
    }
  }

  lemma StepInv(w: World, e: Event)
    requires Inv(w) && Enabled(w, e)
    ensures !Next(w, e).sh.crashed ==> Inv(Next(w, e))
  {
    if e.Accept? {
      AcceptInv(w, e.h1);
    } else {
      var k := e.relay;
      var r := w.relays[k];
      RelayAlone(w, k);
      StepKeeps(r, w.sh, e);
      StepLocal(r, w.sh, e);
      var st := Act(r, w.sh, e);
      StepCensus(w, k, st);
      forall j | 0 <= j < |w.relays| && j != k
        ensures Linked(w.relays[j], st.sh.streams)
      {
        StepOthers(w, k, st, j);
      }
      UndecidedUpdate(w.relays, k, st.r);
    }
  }

  lemma InitialInv(w: World)
    requires Initial(w)
    ensures Inv(w)
  {
    forall s: StreamId
      ensures Places(w, s) == 0
    {
      NoIdle(w.sh.pool.entries, s);
    }
  }

  lemma {:induction false} NoIdle(entries: seq<Entry>, s: StreamId)
    requires forall k :: 0 <= k < |entries| ==> entries[k].idle == []
    ensures IdleSlots(entries, s) == 0
  {
    if entries != [] { NoIdle(entries[1..], s); }
  }

  lemma {:induction false} ExecInv(w: World, run: seq<Event>)
    requires Inv(w) && Legal(w, run)
    ensures var w' := Exec(w, run); w'.sh.crashed || Inv(w')
    decreases run
  {
    if run != [] {
      var w1 := Next(w, run[0]);
      StepInv(w, run[0]);
      if w1.sh.crashed {
        assert run[1..] == [];
      } else {
        ExecInv(w1, run[1..]);
      }
    }
  }

  /** Every run of a worker, with any number of relays, keeps the invariant until a null
      pointer is dereferenced, if that ever happens. */
  lemma RunInv(w: World, run: seq<Event>)
    requires Initial(w) && Legal(w, run)
    ensures Exec(w, run).sh.crashed || Inv(Exec(w, run))
  {
    InitialInv(w);
    ExecInv(w, run);
  }
}
