/**
  The invariant of the relays of one worker and its preservation by every event.

  `LocalOk` is about one relay, `SharedOk` about what they share, and `Census` counts
  backend streams: relays, idle queues and the streams nobody references any more
  together hold every stream ever created exactly once.
 */
module RelayInvariant {
  import opened Common
  import opened RelayModel

  function One(b: bool): nat {
    if b then 1 else 0
  }

  /** The operation an event completes, if any. */
  function Completed(r: Relay, e: Event): Option<Op> {
    if e.Complete? && e.index < Length(r.ctl.pending) then Some(Nth(r.ctl.pending, e.index)) else None
  }

  // ---- one relay --------------------------------------------------------------

  predicate IsPump(op: Op) {
    op.PumpRead? || op.PumpWrite?
  }

  /** Operations issued while the exchange holds a backend stream. */
  predicate NeedsBackend(op: Op) {
    op.WriteRequest? || op.ParseResponse? || op.WriteTunnelOk? || op.WriteUpgrade? || op.WriteResponse?
  }

  /** Operations after which the exchange has no outcome yet. */
  predicate Open(op: Op) {
    op.Connect? || op.WriteRequest? || op.ParseResponse?
  }

  /** Position of an operation in the chain of one exchange. */
  function Rank(op: Op): nat {
    match op
    case ParseRequest => 0
    case Connect(use, _) => if use.ForRetry? then 3 else 1
    case WriteRequest(retryAllowed) => if retryAllowed then 2 else 4
    case ParseResponse => 5
    case WriteTunnelOk => 6
    case WriteUpgrade => 6
    case WriteResponse(_, _) => 6
    case WriteError => 7
    case _ => 8
  }

  predicate PhaseFits(phase: Phase, op: Op) {
    match op
    case ParseRequest => phase == Request
    case Connect(_, _) => phase == Forward
    case WriteRequest(_) => phase == Forward
    case WriteTunnelOk => phase == Forward
    case ParseResponse => phase == Response
    case WriteUpgrade => phase == Response
    case WriteResponse(_, _) => phase == Response
    case _ => phase == Forward || phase == Response
  }

  /** Teardown has closed the backend stream that `op` was issued with or for. */
  predicate Lost(c: Control, op: Op) {
    && c.done && c.tornWith.Cons?
    && (c.tornWith.op == op || (c.tornWith.op.ParseResponse? && (op.WriteResponse? || op.WriteUpgrade?)))
  }

  predicate FinOk(c: Control) {
    && (c.fin == SentEarly ==> c.draining)
    && (!c.done && c.fin == Sent ==> c.pending == Cons(DrainRead, Nil))
  }

  /** The control state of a relay that waits on `op` and nothing else. */
  predicate ControlAt(c: Control, op: Op) {
    && c.pending == Cons(op, Nil)
    && FinOk(c)
    && (if c.done then
          && c.phase != Request
          && c.tornWith.Cons? && c.tornWith.rest.Nil?
          && (c.tornWith.op == op || Rank(c.tornWith.op) < Rank(op))
        else PhaseFits(c.phase, op))
  }

  /** An HTTP/1.1 client that is being drained has had its FIN. */
  predicate Finished(h1: bool, c: Control) {
    h1 ==> c.fin != NotSent && c.draining
  }

  predicate PeerAt(r: Relay, op: Op) {
    if NeedsBackend(op) then r.peer.backend.Null? <==> Lost(r.ctl, op) else r.peer.backend.Null?
  }

  /** At most two writes of one request; the second only after a stale pooled stream, and on a newer one. */
  predicate AttemptsOk(a: Attempts) {
    match a
    case NoAttempt => true
    case Tried(_, NoAttempt) => true
    case Tried(last, Tried(first, rest)) =>
      && rest.NoAttempt?
      && first.pooled && first.failed && !first.hasBody
      && !last.pooled && !last.hasBody
      && first.stream < last.stream
  }

  predicate RetryPending(a: Attempts) {
    a.Tried? && a.earlier.NoAttempt? && a.last.pooled && a.last.failed && !a.last.hasBody
  }

  /** The attempts that fit a relay waiting on `op`. */
  predicate ExchangeAt(ex: Exchange, peer: Peer, op: Op) {
    && AttemptsOk(ex.attempts)
    && match op
       case Connect(use, ep) =>
         if use.ForRetry? then ex.head && !ex.body && ep == peer.endpoint && RetryPending(ex.attempts)
         else ex.attempts.NoAttempt?
       case WriteRequest(retryAllowed) =>
         && ex.head && ex.attempts.Tried?
         && ex.attempts.earlier.NoAttempt? == retryAllowed
         && ex.attempts.last.hasBody == ex.body
         && ex.attempts.last.pooled == peer.fromPool
         && !ex.attempts.last.failed
         && (peer.backend.Stream? ==> ex.attempts.last.stream == peer.backend.id)
       case _ => true
  }

  /** Nothing is reordered, repeated or invented: what was read is what was written, then what is unsent. */
  predicate FlowOk(f: Flow) {
    f.read == f.written + f.unsent
  }

  predicate Quiet(f: Flow) {
    FlowOk(f) && f.unsent == []
  }

  /** The relay waits on one operation of an HTTP exchange. */
  predicate Chained(r: Relay, op: Op) {
    && !IsPump(op)
    && ControlAt(r.ctl, op) && PeerAt(r, op) && ExchangeAt(r.ex, r.peer, op)
    && (op.DrainRead? ==> Finished(r.h1, r.ctl))
    && Quiet(r.up) && Quiet(r.down)
  }

  /** What a pump operation knows about the bytes of its direction. */
  predicate PumpOk(r: Relay, op: Op) {
    && IsPump(op)
    && FlowOf(r, op.dir).unsent == if op.PumpWrite? then op.data else []
  }

  predicate PumpsOk(r: Relay) {
    match r.ctl.pending
    case Nil => true
    case Cons(a, Nil) => PumpOk(r, a)
    case Cons(a, Cons(b, rest)) => rest.Nil? && PumpOk(r, a) && PumpOk(r, b) && a.dir != b.dir
  }

  /** The relay is a byte bridge, or has nothing pending at all. */
  predicate Bridged(r: Relay) {
    && PumpsOk(r)
    && AttemptsOk(r.ex.attempts)
    && FlowOk(r.up) && FlowOk(r.down)
    && (r.ctl.fin == SentEarly ==> r.ctl.draining)
    && (if r.ctl.done then r.ctl.phase != Request
        else r.ctl.phase == Bridge && Length(r.ctl.pending) == 2 && r.peer.backend.Stream? && r.ctl.fin != Sent)
  }

  predicate LocalOk(r: Relay) {
    if r.ctl.pending.Cons? && !IsPump(r.ctl.pending.op) then Chained(r, r.ctl.pending.op) else Bridged(r)
  }

  /** What a relay's fields say about streams agrees with the shared state. */
  predicate Linked(r: Relay, ss: Streams) {
    && (r.peer.backend.Stream? ==>
          && r.peer.backend.id in ss.origin
          && ss.origin[r.peer.backend.id] == r.peer.endpoint
          && (r.peer.backend.id in ss.bridged ==> r.ctl.pending.Nil? || IsPump(r.ctl.pending.op)))
    && (r.ex.attempts.Tried? ==> r.ex.attempts.last.stream < ss.next)
  }

  // ---- the pool ---------------------------------------------------------------

  predicate IdleOk(ss: Streams, s: StreamId, be: Endpoint) {
    && s in ss.origin && SameServer(ss.origin[s], be) && ss.origin[s].proto == Tcp
    && s !in ss.bridged
  }

  predicate EntryOk(ss: Streams, e: Entry) {
    && |e.idle| <= MAX_IDLE_PER_ENDPOINT
    && forall k :: 0 <= k < |e.idle| ==> IdleOk(ss, e.idle[k], e.be)
  }

  predicate EntriesOk(ss: Streams, entries: seq<Entry>) {
    forall k :: 0 <= k < |entries| ==> EntryOk(ss, entries[k])
  }

  ghost predicate StreamsOk(ss: Streams) {
    && (forall s: StreamId :: s in ss.origin <==> s < ss.next)
    && (forall s <- ss.shut :: s in ss.gone)
    && (forall s <- ss.bridged :: s < ss.next)
  }

  ghost predicate SharedOk(sh: Shared) {
    EntriesOk(sh.streams, sh.pool.entries) && StreamsOk(sh.streams)
  }

  // ---- the census of streams --------------------------------------------------

  /** How many times stream `s` is some relay's `backend_`. */
  function Holds(r: Relay, s: StreamId): nat {
    if r.peer.backend == Stream(s) then 1 else 0
  }

  function HeldBy(relays: seq<Relay>, s: StreamId): nat {
    if relays == [] then 0 else Holds(relays[0], s) + HeldBy(relays[1..], s)
  }

  /** How many idle slots of the pool hold stream `s`. */
  function IdleSlots(entries: seq<Entry>, s: StreamId): nat {
    if entries == [] then 0 else multiset(entries[0].idle)[s] + IdleSlots(entries[1..], s)
  }

  /** The number of places stream `s` is in. */
  function Places(w: World, s: StreamId): nat {
    HeldBy(w.relays, s) + IdleSlots(w.sh.pool.entries, s) + w.sh.streams.gone[s]
  }

  /** Every stream created so far is in exactly one place; no other stream is anywhere. */
  ghost predicate Census(w: World) {
    forall s: StreamId :: Places(w, s) == if s < w.sh.streams.next then 1 else 0
  }

  lemma {:induction false} HeldUpdate(relays: seq<Relay>, k: nat, r: Relay, s: StreamId)
    requires k < |relays|
    ensures HeldBy(relays[k := r], s) + Holds(relays[k], s) == HeldBy(relays, s) + Holds(r, s)
  {
    if k == 0 {
      assert relays[0 := r][1..] == relays[1..];
    } else {
      assert relays[k := r][1..] == relays[1..][k - 1 := r];
      HeldUpdate(relays[1..], k - 1, r, s);
    }
  }

  lemma {:induction false} HeldAppend(relays: seq<Relay>, r: Relay, s: StreamId)
    ensures HeldBy(relays + [r], s) == HeldBy(relays, s) + Holds(r, s)
  {
    if relays == [] {
      assert (relays + [r])[1..] == [];
    } else {
      assert (relays + [r])[1..] == relays[1..] + [r];
      HeldAppend(relays[1..], r, s);
    }
  }

  lemma {:induction false} IdleUpdate(entries: seq<Entry>, k: nat, e: Entry, s: StreamId)
    requires k < |entries|
    ensures IdleSlots(entries[k := e], s) + multiset(entries[k].idle)[s] == IdleSlots(entries, s) + multiset(e.idle)[s]
  {
    if k == 0 {
      assert entries[0 := e][1..] == entries[1..];
    } else {
      assert entries[k := e][1..] == entries[1..][k - 1 := e];
      IdleUpdate(entries[1..], k - 1, e, s);
    }
  }

  /** A queue's slots are counted among the pool's. */
  lemma {:induction false} IdleHas(entries: seq<Entry>, k: nat, s: StreamId)
    requires k < |entries|
    ensures multiset(entries[k].idle)[s] <= IdleSlots(entries, s)
  {
    if k > 0 {
      IdleHas(entries[1..], k - 1, s);
    }
  }

  /** The slots of two queues are counted separately. */
  lemma {:induction false} IdleTwo(entries: seq<Entry>, i: nat, j: nat, s: StreamId)
    requires i < j < |entries|
    ensures multiset(entries[i].idle)[s] + multiset(entries[j].idle)[s] <= IdleSlots(entries, s)
  {
    if i == 0 {
      IdleHas(entries[1..], j - 1, s);
    } else {
      IdleTwo(entries[1..], i - 1, j - 1, s);
    }
  }

  lemma {:induction false} HeldHas(relays: seq<Relay>, k: nat, s: StreamId)
    requires k < |relays|
    ensures Holds(relays[k], s) <= HeldBy(relays, s)
  {
    if k > 0 {
      HeldHas(relays[1..], k - 1, s);
    }
  }

  /** Two different relays are counted separately. */
  lemma {:induction false} HeldTwo(relays: seq<Relay>, i: nat, j: nat, s: StreamId)
    requires i < j < |relays|
    ensures Holds(relays[i], s) + Holds(relays[j], s) <= HeldBy(relays, s)
  {
    if i == 0 {
      HeldHas(relays[1..], j - 1, s);
    } else {
      HeldTwo(relays[1..], i - 1, j - 1, s);
    }
  }

  // ---- accounting of exchanges ------------------------------------------------

  /** 1 while the relay's exchange has no outcome yet. */
  function Undecided(r: Relay): nat {
    if r.ctl.pending.Cons? && Open(r.ctl.pending.op) then 1 else 0
  }

  function UndecidedAll(relays: seq<Relay>): nat {
    if relays == [] then 0 else Undecided(relays[0]) + UndecidedAll(relays[1..])
  }

  lemma {:induction false} UndecidedUpdate(relays: seq<Relay>, k: nat, r: Relay)
    requires k < |relays|
    ensures UndecidedAll(relays[k := r]) + Undecided(relays[k]) == UndecidedAll(relays) + Undecided(r)
  {
    if k == 0 {
      assert relays[0 := r][1..] == relays[1..];
    } else {
      assert relays[k := r][1..] == relays[1..][k - 1 := r];
      UndecidedUpdate(relays[1..], k - 1, r);
    }
  }

  lemma {:induction false} UndecidedAppend(relays: seq<Relay>, r: Relay)
    ensures UndecidedAll(relays + [r]) == UndecidedAll(relays) + Undecided(r)
  {
    if relays == [] {
      assert (relays + [r])[1..] == [];
    } else {
      assert (relays + [r])[1..] == relays[1..] + [r];
      UndecidedAppend(relays[1..], r);
    }
  }

  // ---- one event, seen from the relay it names --------------------------------

  /** Streams are only ever added, and a relay marks no stream but its own as bridged. */
  predicate Grows(ss: Streams, r': Relay, ss': Streams) {
    && ss.next <= ss'.next <= ss.next + 1
    && (forall s <- ss.origin :: s in ss'.origin && ss'.origin[s] == ss.origin[s])
    && (forall s <- ss'.bridged :: s in ss.bridged || r'.peer.backend == Stream(s))
  }

  /** The relay and the pool together gain the created stream and lose none. */
  ghost predicate Conserves(r: Relay, sh: Shared, r': Relay, sh': Shared) {
    forall s: StreamId ::
      Holds(r', s) + IdleSlots(sh'.pool.entries, s) + sh'.streams.gone[s]
        == Holds(r, s) + IdleSlots(sh.pool.entries, s) + sh.streams.gone[s]
           + if sh.streams.next <= s < sh'.streams.next then 1 else 0
  }

  /** Requests begun and not yet decided, given the counters. */
  function OpenRequests(n: Stats): int {
    n.requests - n.respOk - n.respErr - n.tunnels
  }

  /** Responses counted that are neither backend responses nor local errors. */
  function Unexplained(n: Stats): int {
    n.respOk + n.respErr - n.latCount - n.localErrors
  }

  function Connects(n: Stats): nat {
    n.backendConnects + n.tunnels + n.quicReused
  }

  predicate Books(r: Relay, sh: Shared, r': Relay, sh': Shared) {
    && (!sh'.crashed ==> OpenRequests(sh'.stats) - Undecided(r') == OpenRequests(sh.stats) - Undecided(r))
    && Unexplained(sh'.stats) == Unexplained(sh.stats)
    && sh'.streams.next - Connects(sh'.stats) == sh.streams.next - Connects(sh.stats)
  }

  /** The relay's stream is nowhere else. */
  predicate Alone(r: Relay, sh: Shared) {
    r.peer.backend.Stream? ==>
      IdleSlots(sh.pool.entries, r.peer.backend.id) == 0 && sh.streams.gone[r.peer.backend.id] == 0
  }
}
