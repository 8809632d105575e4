/**
  Routing of QUIC packets to workers.  The demultiplexer looks the destination connection ID
  up in a table that the workers keep up to date while packets arrive; an unknown ID goes to the
  worker its first byte names, or else to a hash of it.
 */
module CidRouting {
  import opened Common

  type Cid = Bytes

  /** Every server connection ID has this length. */
  const SERVER_CID_LEN := 8

  // ---- routing without the table ----------------------------------------------

  const FNV_OFFSET := 0xcbf29ce484222325
  const FNV_PRIME := 0x100000001b3
  const TWO_64 := 0x1_0000_0000_0000_0000

  /** Exclusive or of the low `bits` bits. */
  function Xor(a: nat, b: nat, bits: nat): nat {
    if bits == 0 then 0 else (a + b) % 2 + 2 * Xor(a / 2, b / 2, bits - 1)
  }

  /** Exclusive or with a byte, which only reaches the low eight bits. */
  function XorByte(h: nat, b: byte): nat {
    256 * (h / 256) + Xor(h % 256, b, 8)
  }

  /** FNV-1a in 64-bit arithmetic. */
  function Fnv(cid: Cid): nat {
    if cid == [] then FNV_OFFSET
    else XorByte(Fnv(cid[..|cid| - 1]), cid[|cid| - 1]) * FNV_PRIME % TWO_64
  }

  /** The worker of a connection ID, as a function of its bytes alone. */
  function Home(cid: Cid, workers: nat): (w: nat)
    requires cid != [] && workers > 0
    ensures w < workers
  {
    if cid[0] < workers then cid[0] else Fnv(cid) % workers
  }

  // ---- the table --------------------------------------------------------------

  type Table = map<Cid, nat>

  /** The worker a packet with destination `cid` is handed to; None drops it. */
  function Route(table: Table, workers: nat, cid: Option<Cid>): Option<nat> {
    if workers == 0 || cid.None? || cid.value == [] then None
    else if cid.value in table then Some(table[cid.value])
    else Some(Home(cid.value, workers))
  }

  /** A connection ID that worker `w`'s engine can generate. */
  predicate Generated(cid: Cid, w: nat) {
    |cid| == SERVER_CID_LEN && cid[0] == w % 256
  }

  // ---- runs -------------------------------------------------------------------

  datatype Demux = Demux(workers: nat, table: Table, issued: set<(Cid, nat)>)

  /** One action of one thread; the table is locked during each. */
  datatype Event =
    | Generate(w: nat, cid: Cid)
    | Register(w: nat, cid: Cid)   // ea_new_scids, from the engine that has the connection
    | Retire(cid: Cid)             // ea_old_scids
    | Packet(dcid: Option<Cid>, source: string)

  /** An engine registers the IDs it has generated, and others under which packets reach it. */
  predicate Enabled(d: Demux, e: Event) {
    match e
    case Generate(w, cid) => w < d.workers && Generated(cid, w)
    case Register(w, cid) => (cid, w) in d.issued || Route(d.table, d.workers, Some(cid)) == Some(w)
    case _ => true
  }

  function Step(d: Demux, e: Event): Demux {
    match e
    case Generate(w, cid) => d.(issued := d.issued + {(cid, w)})
    case Register(w, cid) => d.(table := d.table[cid := w])
    case Retire(cid) => d.(table := d.table - {cid})
    case Packet(_, _) => d
  }

  /** Each step is enabled where it happens; the run starts with an empty table. */
  predicate Run(workers: nat, events: seq<Event>, states: seq<Demux>) {
    && |states| == |events| + 1 && states[0] == Demux(workers, map[], {})
    && forall i :: 0 <= i < |events| ==> Enabled(states[i], events[i]) && states[i + 1] == Step(states[i], events[i])
  }

  predicate Agrees(d: Demux) {
    && (forall p <- d.issued :: p.1 < d.workers && Generated(p.0, p.1))
    && (forall cid <- d.table :: cid != [] && d.workers > 0 && d.table[cid] == Home(cid, d.workers))
  }

  lemma IssuedAtHome(cid: Cid, w: nat, workers: nat)
    requires w < workers <= 256 && Generated(cid, w)
    ensures Home(cid, workers) == w
  {
  }

  lemma StepAgrees(d: Demux, e: Event)
    requires Agrees(d) && Enabled(d, e) && d.workers <= 256
    ensures Agrees(Step(d, e))
  {
    if e.Register? && (e.cid, e.w) in d.issued { IssuedAtHome(e.cid, e.w, d.workers); }
  }

  lemma {:induction false} RunAgrees(workers: nat, events: seq<Event>, states: seq<Demux>, i: nat)
    requires workers <= 256 && Run(workers, events, states) && i < |states|
    ensures Agrees(states[i]) && states[i].workers == workers
  {
    if i > 0 {
      RunAgrees(workers, events, states, i - 1);
      StepAgrees(states[i - 1], events[i - 1]);
    }
  }

  /** In every interleaving of the workers with packet arrival the table is only a cache: it
      never changes where a packet goes. */
  lemma TableIsACache(workers: nat, events: seq<Event>, states: seq<Demux>, i: nat, cid: Cid)
    requires 0 < workers <= 256 && Run(workers, events, states) && i < |states| && cid != []
    ensures Route(states[i].table, workers, Some(cid)) == Some(Home(cid, workers))
  {
    RunAgrees(workers, events, states, i);
  }

  /** Packets with the same destination ID reach the same worker at any two times of a run,
      whatever their source addresses and whatever is registered in between. */
  lemma SameCidSameWorker(workers: nat, events: seq<Event>, states: seq<Demux>, i: nat, j: nat)
    requires 0 < workers <= 256 && Run(workers, events, states) && i < |events| && j < |events|
    requires events[i].Packet? && events[j].Packet? && events[i].dcid == events[j].dcid
    ensures Route(states[i].table, workers, events[i].dcid) == Route(states[j].table, workers, events[j].dcid)
  {
    if events[i].dcid.Some? && events[i].dcid.value != [] {
      TableIsACache(workers, events, states, i, events[i].dcid.value);
      TableIsACache(workers, events, states, j, events[j].dcid.value);
    }
  }

  /** A packet for an ID some worker has generated reaches that worker, before the ID is
      registered, while it is, and after it is retired. */
  lemma IssuedReachesIssuer(workers: nat, events: seq<Event>, states: seq<Demux>, i: nat, cid: Cid, w: nat)
    requires 0 < workers <= 256 && Run(workers, events, states) && i < |states| && (cid, w) in states[i].issued
    ensures Route(states[i].table, workers, Some(cid)) == Some(w)
  {
    RunAgrees(workers, events, states, i);
    IssuedAtHome(cid, w, workers);
  }

  /** The routing byte names every worker exactly when there are at most 256 of them. */
  lemma RoutingByteIff(workers: nat)
    requires workers > 0
    ensures workers <= 256 <==> forall w: nat, cid: Cid :: w < workers && Generated(cid, w) ==> Home(cid, workers) == w
  {
    if workers > 256 {
      var cid: Cid := [0, 0, 0, 0, 0, 0, 0, 0];
      assert Generated(cid, 256) && Home(cid, workers) == 0;
    } else {
      forall w: nat, cid: Cid | w < workers && Generated(cid, w)
        ensures Home(cid, workers) == w
      {
        IssuedAtHome(cid, w, workers);
      }
    }
  }

  /** Beyond that, registering an ID moves its packets to another worker. */
  lemma TooManyWorkers(workers: nat)
    requires workers > 256
    ensures exists events: seq<Event>, states: seq<Demux>, cid: Cid ::
              && Run(workers, events, states) && |events| == 2 && cid != []
              && Route(states[1].table, workers, Some(cid)) != Route(states[2].table, workers, Some(cid))
  {
    var cid: Cid := [0, 0, 0, 0, 0, 0, 0, 0];
    var s0 := Demux(workers, map[], {});
    var e0, e1 := Generate(256, cid), Register(256, cid);
    var s1 := Step(s0, e0);
    var s2 := Step(s1, e1);
    assert Generated(cid, 256);
    assert Run(workers, [e0, e1], [s0, s1, s2]);
    assert Route(s1.table, workers, Some(cid)) == Some(0) && Route(s2.table, workers, Some(cid)) == Some(256);
  }

  // ---- what the table holds ---------------------------------------------------

  /** The last worker that registered the ID, unless it has been retired since. */
  function LastEntry(events: seq<Event>, cid: Cid): Option<nat> {
    if events == [] then None
    else
      match events[|events| - 1]
      case Register(w, c) => if c == cid then Some(w) else LastEntry(events[..|events| - 1], cid)
      case Retire(c) => if c == cid then None else LastEntry(events[..|events| - 1], cid)
      case _ => LastEntry(events[..|events| - 1], cid)
  }

  /** At any time of any run the table holds just the IDs that are registered and not retired. */
  lemma {:induction false} TableHolds(workers: nat, events: seq<Event>, states: seq<Demux>, i: nat, cid: Cid)
    requires Run(workers, events, states) && i < |states|
    ensures LastEntry(events[..i], cid) == if cid in states[i].table then Some(states[i].table[cid]) else None
  {
    if i > 0 {
      TableHolds(workers, events, states, i - 1, cid);
      assert events[..i][..i - 1] == events[..i - 1] && events[..i][i - 1] == events[i - 1];
    }
  }
}
