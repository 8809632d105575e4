/**
  Upstream QUIC connections and their reuse.  A session waits in the reuse table of its endpoint,
  is taken out for each stream that is opened on it, and goes back when the stream arrives.  The
  library answers each request for a stream once, with a stream or with none, and reports a
  connection closed only after it has answered the requests made on it.
 */
module QuicPool {
  import opened Common

  /** Host and port: connections are shared by the backends of one address. */
  datatype Key = Key(host: string, port: nat)

  datatype Open = Open(ticket: nat, key: Key, fromPool: bool)

  /** What a connect request is answered with. */
  datatype Answer = NotFound | Unreachable | Broken | Stream(session: nat, fromPool: bool)

  /** A connect request: the endpoint wanted and the callbacks made. */
  datatype Call = Call(key: Key, got: seq<Answer>)

  datatype Pool = Pool(
    conns: map<Key, seq<nat>>,      // reuse table
    opens: map<nat, Open>,          // sessions with a stream requested
    home: seq<Key>,                 // every session ever created, with its endpoint
    closed: set<nat>,
    dead: set<nat>,                 // discarded when no stream came
    calls: seq<Call>,               // connect requests
    retries: nat)

  const EMPTY := Pool(map[], map[], [], {}, {}, [], 0)

  // ---- the reuse table --------------------------------------------------------

  function Put(conns: map<Key, seq<nat>>, k: Key, s: nat): map<Key, seq<nat>> {
    conns[k := (if k in conns then conns[k] else []) + [s]]
  }

  function SetQueue(conns: map<Key, seq<nat>>, k: Key, q: seq<nat>): map<Key, seq<nat>> {
    if q == [] then conns - {k} else conns[k := q]
  }

  /** The queue without the first occurrence of `s`. */
  function Without(q: seq<nat>, s: nat): (r: seq<nat>)
    ensures s !in q ==> r == q
  {
    if q == [] then [] else if q[0] == s then q[1..] else [q[0]] + Without(q[1..], s)
  }

  function Drop(conns: map<Key, seq<nat>>, k: Key, s: nat): map<Key, seq<nat>> {
    if k in conns then SetQueue(conns, k, Without(conns[k], s)) else conns
  }

  // ---- operations -------------------------------------------------------------

  /** What creating a connection comes to. */
  datatype Made = NoEngine | Failed | Made

  function Reply(p: Pool, t: nat, a: Answer): Pool
    requires t < |p.calls|
  {
    p.(calls := p.calls[t := Call(p.calls[t].key, p.calls[t].got + [a])])
  }

  function OpenOn(p: Pool, s: nat, o: Open): Pool {
    p.(opens := p.opens[s := o])
  }

  function ConnectFresh(p: Pool, t: nat, k: Key, made: Made): Pool
    requires t < |p.calls|
  {
    match made
    case NoEngine => Reply(p, t, NotFound)
    case Failed => Reply(p, t, Unreachable)
    case Made => OpenOn(p.(home := p.home + [k]), |p.home|, Open(t, k, false))
  }

  function Connect(p: Pool, t: nat, k: Key, made: Made): Pool
    requires t < |p.calls|
  {
    if k in p.conns && p.conns[k] != [] then
      OpenOn(p.(conns := SetQueue(p.conns, k, p.conns[k][1..])), p.conns[k][0], Open(t, k, true))
    else ConnectFresh(p, t, k, made)
  }

  function Ready(p: Pool, s: nat): Pool
    requires s in p.opens && p.opens[s].ticket < |p.calls|
  {
    var o := p.opens[s];
    Reply(p.(opens := p.opens - {s}, conns := Put(p.conns, o.key, s)), o.ticket, Stream(s, o.fromPool))
  }

  function Discard(p: Pool, s: nat): Pool
    requires s in p.opens
  {
    p.(opens := p.opens - {s}, conns := Drop(p.conns, p.opens[s].key, s), dead := p.dead + {s})
  }

  function CountRetry(p: Pool): Pool {
    p.(retries := p.retries + 1)
  }

  /** No stream came: a session from the table was stale and is replaced, a new one has failed. */
  function Lost(p: Pool, s: nat, made: Made): Pool
    requires s in p.opens && p.opens[s].ticket < |p.calls|
  {
    var o := p.opens[s];
    if o.fromPool then Connect(CountRetry(Discard(p, s)), o.ticket, o.key, made)
    else Reply(Discard(p, s), o.ticket, Broken)
  }

  function Close(p: Pool, s: nat): Pool
    requires s < |p.home|
  {
    p.(closed := p.closed + {s}, conns := Drop(p.conns, p.home[s], s))
  }

  // ---- runs -------------------------------------------------------------------

  datatype Event =
    | Request(key: Key, reuse: bool, made: Made)   // async_connect, or the relay's fresh retry
    | StreamUp(session: nat)
    | StreamNull(session: nat, made: Made)
    | Closed(session: nat)

  predicate Enabled(p: Pool, e: Event) {
    match e
    case Request(_, _, _) => true
    case StreamUp(s) => s in p.opens && p.opens[s].ticket < |p.calls|
    case StreamNull(s, _) => s in p.opens && p.opens[s].ticket < |p.calls|
    case Closed(s) => s < |p.home| && s !in p.opens && s !in p.closed
  }

  function Begin(p: Pool, k: Key): Pool {
    p.(calls := p.calls + [Call(k, [])])
  }

  function Next(p: Pool, e: Event): Pool
    requires Enabled(p, e)
  {
    match e
    case Request(k, reuse, made) =>
      if reuse then Connect(Begin(p, k), |p.calls|, k, made) else ConnectFresh(Begin(p, k), |p.calls|, k, made)
    case StreamUp(s) => Ready(p, s)
    case StreamNull(s, made) => Lost(p, s, made)
    case Closed(s) => Close(p, s)
  }

  predicate Legal(p: Pool, es: seq<Event>)
    decreases |es|
  {
    es == [] || (Enabled(p, es[0]) && Legal(Next(p, es[0]), es[1..]))
  }

  function Exec(p: Pool, es: seq<Event>): Pool
    requires Legal(p, es)
    decreases |es|
  {
    if es == [] then p else Exec(Next(p, es[0]), es[1..])
  }

  // ---- invariant --------------------------------------------------------------

  /** A session that may be handed out for `k`. */
  predicate Idle(p: Pool, k: Key, s: nat) {
    s < |p.home| && p.home[s] == k && s !in p.closed && s !in p.opens && s !in p.dead
  }

  predicate Distinct(q: seq<nat>) {
    forall i, j :: 0 <= i < j < |q| ==> q[i] != q[j]
  }

  ghost predicate TableOk(p: Pool) {
    && (forall k :: k in p.conns ==> p.conns[k] != [] && Distinct(p.conns[k]))
    && (forall k, s :: k in p.conns && s in p.conns[k] ==> Idle(p, k, s))
  }

  ghost predicate OpensOk(p: Pool) {
    && (forall s :: s in p.opens ==>
          && s < |p.home| && p.home[s] == p.opens[s].key && s !in p.closed && s !in p.dead
          && p.opens[s].ticket < |p.calls| && p.calls[p.opens[s].ticket] == Call(p.opens[s].key, []))
    && (forall s, s' :: s in p.opens && s' in p.opens && p.opens[s].ticket == p.opens[s'].ticket ==> s == s')
  }

  ghost predicate Waiting(p: Pool, t: nat) {
    exists s :: s in p.opens && p.opens[s].ticket == t
  }

  /** The answer is an error, or a stream on a connection to the endpoint asked for. */
  predicate Truthful(home: seq<Key>, k: Key, a: Answer) {
    a.Stream? ==> a.session < |home| && home[a.session] == k
  }

  predicate Answered(home: seq<Key>, c: Call) {
    |c.got| == 1 && Truthful(home, c.key, c.got[0])
  }

  ghost predicate AnswersOk(p: Pool) {
    forall t :: 0 <= t < |p.calls| ==> Answered(p.home, p.calls[t]) || (p.calls[t].got == [] && Waiting(p, t))
  }

  ghost predicate DeadOk(p: Pool) {
    p.retries <= |p.dead| && forall s :: s in p.dead || s in p.closed ==> s < |p.home|
  }

  ghost predicate Inv(p: Pool) {
    TableOk(p) && OpensOk(p) && AnswersOk(p) && DeadOk(p)
  }
}
