/** Concrete runs that show the limits of the theorems are real. */
module RelayWitness {
  import opened Common
  import opened RelayModel
  import opened RelayInvariant
  import opened RelaySafety
  import opened RelayTheorems

  const SERVER := Endpoint("app", "10.0.0.1", 8080, Tcp)

  /** One backend, no client. */
  function Fresh(): World {
    World([], Shared(Pool([Entry(SERVER, [])], 0), NO_STATS, NO_STREAMS, false))
  }

  const GET := Req(Routed("app"), false, true, false, false)

  lemma Reach(w: World, e: Event)
    requires Reachable(w) && Enabled(w, e)
    ensures exists w0, run :: Initial(w0) && Legal(w0, run) && Exec(w0, run) == Next(w, e)
    ensures !Next(w, e).sh.crashed ==> Reachable(Next(w, e))
  {
    var w0, run :| Initial(w0) && Legal(w0, run) && Exec(w0, run) == w;
    Extend(w0, run, e);
  }

  /** One relay, alive, waiting on `op` with the pool still empty. */
  predicate Waits(w: World, op: Op) {
    && |w.relays| == 1 && w.relays[0].ctl.pending == Cons(op, Nil) && Length(w.relays[0].ctl.pending) == 1
    && !w.relays[0].ctl.done && !w.relays[0].ex.isHead
    && w.sh.pool.entries == [Entry(SERVER, [])]
  }

  lemma AtParse() returns (w: World)
    ensures Reachable(w) && Waits(w, ParseRequest)
  {
    var w0 := Fresh();
    assert Initial(w0) && Legal(w0, []) && Exec(w0, []) == w0;
    Reach(w0, Accept(true));
    w := Next(w0, Accept(true));
    assert w.relays[0] == Started(true);
  }

  lemma AtConnect() returns (w: World)
    ensures Reachable(w) && Waits(w, Connect(ForRequest(false), SERVER))
  {
    var v := AtParse();
    var e := Complete(0, 0, Parsed(GET));
    assert Enabled(v, e);
    Reach(v, e);
    w := Next(v, e);
    var r1, sh1 := BeginExchange(Drop(v.relays[0], 0), GET), CountRequest(v.sh);
    assert Candidates(sh1.pool.entries, "app", 1) == [];
    assert Candidates(sh1.pool.entries, "app") == [0];
    assert Chosen(sh1.pool, "app") == 0;
    assert PoolConnect(r1, sh1, "app", false).r == Issue(r1, Connect(ForRequest(false), SERVER));
  }

  lemma AtWrite() returns (w: World)
    ensures Reachable(w) && Waits(w, WriteRequest(true)) && w.relays[0].peer.backend.Stream?
    ensures w.relays[0].peer.endpoint == SERVER
  {
    var v := AtConnect();
    var e := Complete(0, 0, Connected(false));
    assert Enabled(v, e);
    Reach(v, e);
    w := Next(v, e);
  }

  /** A timeout during the write of a request, which then succeeds, dereferences null. */
  lemma NullBackendHappens()
    ensures exists w0, run :: Initial(w0) && Legal(w0, run) && Exec(w0, run).sh.crashed
  {
    var v := AtWrite();
    Reach(v, Timer(0));
    var w := Next(v, Timer(0));
    assert w.relays[0].ctl.pending == v.relays[0].ctl.pending && w.relays[0].ctl.tornWith == v.relays[0].ctl.pending;
    var e := Complete(0, 0, Ok);
    assert Enabled(w, e);
    NullBackendIff(w, e);
    Reach(w, e);
  }

  /** A request parsed after a timeout takes the relay out of the closed phase. */
  lemma ClosedIsLeft() returns (w: World, e: Event)
    ensures Reachable(w) && Enabled(w, e) && e == Complete(0, 0, Parsed(GET)) && w.relays[0].ctl.phase == Closed
    ensures Next(w, e).relays[0].ctl.phase != Closed
  {
    var v := AtParse();
    Reach(v, Timer(0));
    w := Next(v, Timer(0));
    e := Complete(0, 0, Parsed(GET));
    assert Enabled(w, e);
    ClosedLeftIff(w, e);
  }

  /** A request that arrives after graceful_close has sent the FIN has its response written after it. */
  lemma WriteAfterFinHappens() returns (w: World)
    ensures Reachable(w) && |w.relays| == 1 && !w.relays[0].ctl.done
    ensures w.relays[0].ctl.pending == Cons(WriteError, Nil) && w.relays[0].ctl.fin == SentEarly
  {
    var v := AtParse();
    RequestPhaseOf(v);
    Reach(v, Graceful(0));
    var u := Next(v, Graceful(0));
    var e := Complete(0, 0, Parsed(GET.(target := Routed(""))));
    assert Enabled(u, e);
    Reach(u, e);
    w := Next(u, e);
  }

  lemma RequestPhaseOf(w: World)
    requires Reachable(w) && Waits(w, ParseRequest)
    ensures w.relays[0].ctl.phase == Request
  {
    ReachableInv(w);
    assert LocalOk(w.relays[0]);
  }
}
