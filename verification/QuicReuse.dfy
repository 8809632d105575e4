/** When upstream QUIC connections are reused and when they are created, over every run, seen in the table,
    in the sessions that open a stream and in those ever created. */
module QuicReuse {
  import opened Common
  import opened QuicPool
  import opened QuicPoolProofs

  /** The sessions that wait for the endpoint, the front one first. */
  function Queue(p: Pool, k: Key): seq<nat> {
    if k in p.conns then p.conns[k] else []
  }

  /** The queues of all endpoints but one are as they were. */
  ghost predicate OthersWait(p: Pool, p': Pool, k: Key) {
    forall j :: j != k ==> Queue(p', j) == Queue(p, j)
  }

  // ---- requests ---------------------------------------------------------------

  /** A request for an endpoint with a session in the table opens its stream on the front one, which leaves
      the table; no session is created. */
  lemma RequestReuses(es: seq<Event>, k: Key, made: Made)
    requires Legal(EMPTY, es) && Queue(Exec(EMPTY, es), k) != []
    ensures var p := Exec(EMPTY, es); var p' := Next(p, Request(k, true, made));
            && p'.home == p.home && p'.calls == p.calls + [Call(k, [])]
            && p'.opens == p.opens[Queue(p, k)[0] := Open(|p.calls|, k, true)]
            && Queue(p', k) == Queue(p, k)[1..] && OthersWait(p, p', k)
  {
  }

  /** Any other request creates one and opens its stream there, if that can be done at all, and leaves the
      table alone. */
  lemma RequestCreates(es: seq<Event>, k: Key, reuse: bool, made: Made)
    requires Legal(EMPTY, es) && (!reuse || Queue(Exec(EMPTY, es), k) == [])
    ensures var p := Exec(EMPTY, es); var p' := Next(p, Request(k, reuse, made));
            && p'.conns == p.conns
            && (made.Made? ==> && p'.home == p.home + [k] && p'.calls == p.calls + [Call(k, [])]
                               && p'.opens == p.opens[|p.home| := Open(|p.calls|, k, false)])
            && (!made.Made? ==> && p'.home == p.home && p'.opens == p.opens && |p'.calls| == |p.calls| + 1
                                && p'.calls[|p.calls|].key == k && |p'.calls[|p.calls|].got| == 1
                                && !p'.calls[|p.calls|].got[0].Stream?)
  {
    var p := Exec(EMPTY, es);
    ReachableInv(es);
    assert k in p.conns ==> p.conns[k] != [];
  }

  // ---- answers from the library -----------------------------------------------

  /** When its stream has come, a session waits for its endpoint again, behind all others. */
  lemma StreamUpPools(es: seq<Event>, s: nat)
    requires Legal(EMPTY, es) && Enabled(Exec(EMPTY, es), StreamUp(s))
    ensures var p := Exec(EMPTY, es); var p', k := Next(p, StreamUp(s)), p.opens[s].key;
            && p'.home == p.home && p'.opens == p.opens - {s}
            && Queue(p', k) == Queue(p, k) + [s] && OthersWait(p, p', k)
            && p'.calls[p.opens[s].ticket].got == [Stream(s, p.opens[s].fromPool)]
  {
    ReachableInv(es);
  }

  /** A stale session is given up, and its request goes to the next that waits, or to a new one when none
      does. */
  lemma StaleRetries(es: seq<Event>, s: nat, made: Made)
    requires Legal(EMPTY, es) && Enabled(Exec(EMPTY, es), StreamNull(s, made)) && Exec(EMPTY, es).opens[s].fromPool
    ensures var p := Exec(EMPTY, es); var p', t, k := Next(p, StreamNull(s, made)), p.opens[s].ticket, p.opens[s].key;
            && s !in p'.opens
            && (Queue(p, k) != [] ==>
                  && p'.home == p.home && p'.opens == (p.opens - {s})[Queue(p, k)[0] := Open(t, k, true)]
                  && Queue(p', k) == Queue(p, k)[1..] && OthersWait(p, p', k))
            && (Queue(p, k) == [] ==>
                  && p'.conns == p.conns
                  && (made.Made? ==> && p'.home == p.home + [k]
                                     && p'.opens == (p.opens - {s})[|p.home| := Open(t, k, false)])
                  && (!made.Made? ==> p'.home == p.home && p'.opens == p.opens - {s}))
  {
    var p := Exec(EMPTY, es);
    ReachableInv(es);
    NotPooled(p, s);
    DropAbsent(p.conns, p.opens[s].key, s);
    assert forall k :: k in p.conns ==> p.conns[k] != [];
    if Queue(p, p.opens[s].key) != [] { assert Idle(p, p.opens[s].key, Queue(p, p.opens[s].key)[0]); }
  }

  /** A new session that gives no stream is given up and its request answered with an error. */
  lemma NewFails(es: seq<Event>, s: nat, made: Made)
    requires Legal(EMPTY, es) && Enabled(Exec(EMPTY, es), StreamNull(s, made)) && !Exec(EMPTY, es).opens[s].fromPool
    ensures var p := Exec(EMPTY, es); var p' := Next(p, StreamNull(s, made));
            && p'.home == p.home && p'.opens == p.opens - {s} && p'.conns == p.conns
            && p'.calls[p.opens[s].ticket].got == [Broken]
  {
    var p := Exec(EMPTY, es);
    ReachableInv(es);
    NotPooled(p, s);
    DropAbsent(p.conns, p.opens[s].key, s);
  }

  /** A session whose connection closes waits no more; all others wait on as they did. */
  lemma ClosedLeaves(es: seq<Event>, s: nat, k: Key, x: nat)
    requires Legal(EMPTY, es) && Enabled(Exec(EMPTY, es), Closed(s))
    ensures var p := Exec(EMPTY, es); var p' := Next(p, Closed(s));
            && p'.home == p.home && p'.opens == p.opens
            && (x in Queue(p', k) <==> x in Queue(p, k) && x != s)
  {
    var p := Exec(EMPTY, es);
    ReachableInv(es);
    if p.home[s] in p.conns { WithoutMembers(p.conns[p.home[s]], s); }
    if k in p.conns && s in p.conns[k] { assert Idle(p, k, s); }
  }

  /** A session is created exactly when one is asked for and can be made, and none waits for the endpoint or
      reuse is off. */
  lemma CreatesIff(es: seq<Event>, e: Event)
    requires Legal(EMPTY, es) && Enabled(Exec(EMPTY, es), e)
    ensures var p := Exec(EMPTY, es);
            Next(p, e).home != p.home <==>
              match e
              case Request(k, reuse, made) => made.Made? && (!reuse || Queue(p, k) == [])
              case StreamNull(s, made) => made.Made? && p.opens[s].fromPool && Queue(p, p.opens[s].key) == []
              case _ => false
  {
    var p := Exec(EMPTY, es);
    match e
    case Request(k, reuse, made) =>
      if reuse && Queue(p, k) != [] { RequestReuses(es, k, made); } else { RequestCreates(es, k, reuse, made); }
    case StreamNull(s, made) =>
      if p.opens[s].fromPool { StaleRetries(es, s, made); } else { NewFails(es, s, made); }
    case StreamUp(s) => StreamUpPools(es, s);
    case Closed(s) => ClosedLeaves(es, s, Key("", 0), 0);
  }

  // ---- who waits longest ------------------------------------------------------

  /** The last time a stream came on the session, counted from one; zero if none did. */
  function LastUp(es: seq<Event>, s: nat): nat {
    if es == [] then 0
    else if es[|es| - 1] == StreamUp(s) then |es|
    else LastUp(es[..|es| - 1], s)
  }

  lemma {:induction false} LastUpBound(es: seq<Event>, s: nat)
    ensures LastUp(es, s) <= |es|
  {
    if es != [] { LastUpBound(es[..|es| - 1], s); }
  }

  lemma {:induction false} ExecLast(p: Pool, es: seq<Event>, e: Event)
    requires Legal(p, es + [e])
    ensures Legal(p, es) && Enabled(Exec(p, es), e) && Exec(p, es + [e]) == Next(Exec(p, es), e)
    decreases |es|
  {
    if es == [] {
      assert es + [e] == [e] && [e][1..] == [];
    } else {
      assert (es + [e])[0] == es[0] && (es + [e])[1..] == es[1..] + [e];
      ExecLast(Next(p, es[0]), es[1..], e);
    }
  }

  /** A queue is in the order in which its sessions came to it. */
  predicate InOrder(es: seq<Event>, q: seq<nat>) {
    forall i, j :: 0 <= i < j < |q| ==> LastUp(es, q[i]) < LastUp(es, q[j])
  }

  lemma {:induction false} WithoutInOrder(es: seq<Event>, q: seq<nat>, s: nat)
    requires InOrder(es, q)
    ensures InOrder(es, Without(q, s)) && forall x :: x in Without(q, s) ==> x in q
  {
    if q != [] {
      TailInOrder(es, q);
      if q[0] != s {
        WithoutInOrder(es, q[1..], s);
        HeadInOrder(es, q[0], Without(q[1..], s));
      }
    }
  }

  lemma TailInOrder(es: seq<Event>, q: seq<nat>)
    requires InOrder(es, q) && q != []
    ensures InOrder(es, q[1..]) && forall x :: x in q[1..] ==> LastUp(es, q[0]) < LastUp(es, x)
  {
    assert forall i :: 0 <= i < |q| - 1 ==> q[1..][i] == q[i + 1];
  }

  lemma HeadInOrder(es: seq<Event>, x: nat, q: seq<nat>)
    requires InOrder(es, q) && forall y :: y in q ==> LastUp(es, x) < LastUp(es, y)
    ensures InOrder(es, [x] + q)
  {
    assert forall j :: 0 < j < |[x] + q| ==> ([x] + q)[j] == q[j - 1] && q[j - 1] in q;
  }

  /** Nothing changes for a queue while no stream comes on its sessions. */
  lemma StaysInOrder(es: seq<Event>, e: Event, q: seq<nat>)
    requires InOrder(es, q) && forall s :: s in q ==> e != StreamUp(s)
    ensures InOrder(es + [e], q)
  {
    assert (es + [e])[..|es|] == es;
    assert forall i :: 0 <= i < |q| ==> q[i] in q && LastUp(es + [e], q[i]) == LastUp(es, q[i]);
  }

  lemma JoinsInOrder(es: seq<Event>, q: seq<nat>, s: nat)
    requires InOrder(es, q) && s !in q
    ensures InOrder(es + [StreamUp(s)], q + [s])
  {
    var es', q' := es + [StreamUp(s)], q + [s];
    StaysInOrder(es, StreamUp(s), q);
    assert es'[..|es|] == es;
    forall i | 0 <= i < |q|
      ensures LastUp(es', q[i]) < LastUp(es', s)
    {
      LastUpBound(es, q[i]);
      assert q[i] in q;
    }
  }

  /** In every state of every run each queue is in the order in which its sessions came to it: the front
      one has waited longest. */
  lemma {:induction false} WaitsInOrder(es: seq<Event>, k: Key)
    requires Legal(EMPTY, es)
    ensures InOrder(es, Queue(Exec(EMPTY, es), k))
    decreases |es|
  {
    if es != [] {
      var es0, e := es[..|es| - 1], es[|es| - 1];
      assert es == es0 + [e];
      ExecLast(EMPTY, es0, e);
      WaitsInOrder(es0, k);
      OrderStep(es0, e, k);
    }
  }

  lemma OrderUp(es: seq<Event>, s: nat, k: Key)
    requires Legal(EMPTY, es) && Enabled(Exec(EMPTY, es), StreamUp(s)) && InOrder(es, Queue(Exec(EMPTY, es), k))
    ensures InOrder(es + [StreamUp(s)], Queue(Next(Exec(EMPTY, es), StreamUp(s)), k))
  {
    var p := Exec(EMPTY, es);
    ReachableInv(es);
    NotPooled(p, s);
    StreamUpPools(es, s);
    if p.opens[s].key == k { JoinsInOrder(es, Queue(p, k), s); } else { StaysInOrder(es, StreamUp(s), Queue(p, k)); }
  }

  /** The events that only take sessions out of the table. */
  lemma OrderStep(es: seq<Event>, e: Event, k: Key)
    requires Legal(EMPTY, es) && Enabled(Exec(EMPTY, es), e) && InOrder(es, Queue(Exec(EMPTY, es), k))
    ensures InOrder(es + [e], Queue(Next(Exec(EMPTY, es), e), k))
  {
    var p := Exec(EMPTY, es);
    var q := Queue(p, k);
    match e
    case StreamUp(s) => OrderUp(es, s, k);
    case Closed(s) =>
      WithoutInOrder(es, q, s);
      StaysInOrder(es, e, q);
      StaysInOrder(es, e, Without(q, s));
    case Request(k', reuse, made) =>
      StaysInOrder(es, e, q);
      if reuse && Queue(p, k') != [] { RequestReuses(es, k', made); } else { RequestCreates(es, k', reuse, made); }
    case StreamNull(s, made) =>
      StaysInOrder(es, e, q);
      if p.opens[s].fromPool { StaleRetries(es, s, made); } else { NewFails(es, s, made); }
  }

  // ---- a run ------------------------------------------------------------------

  lemma ExecMore(p: Pool, e: Event, es: seq<Event>)
    requires Enabled(p, e) && Legal(Next(p, e), es)
    ensures Legal(p, [e] + es) && Exec(p, [e] + es) == Exec(Next(p, e), es)
  {
    assert ([e] + es)[1..] == es;
  }

  /** One session, up and waiting. */
  function Waits(k: Key): Pool {
    Pool(map[k := [0]], map[], [k], {}, {}, [Call(k, [Stream(0, false)])], 0)
  }

  lemma FirstComesUp(k: Key)
    ensures var p := Next(EMPTY, Request(k, true, Made.Made));
            Enabled(p, StreamUp(0)) && Next(p, StreamUp(0)) == Waits(k)
  {
    var p := Next(EMPTY, Request(k, true, Made.Made));
    assert p == Pool(map[], map[0 := Open(0, k, false)], [k], {}, {}, [Call(k, [])], 0);
    assert p.opens - {0} == map[];
    var queue: seq<nat>, got: seq<Answer> := [] + [0], [] + [Stream(0, false)];
    assert queue == [0] && got == [Stream(0, false)];
    assert Put(p.conns, k, 0) == map[k := [0]];
    assert p.calls[0 := Call(k, got)] == [Call(k, [Stream(0, false)])];
  }

  /** The second request for an endpoint uses the connection that the first one made. */
  lemma SecondReuses(k: Key)
    ensures var es := [Request(k, true, Made.Made), StreamUp(0), Request(k, true, Made.Made)];
            && Legal(EMPTY, es)
            && Exec(EMPTY, es).home == [k] && Exec(EMPTY, es).opens == map[0 := Open(1, k, true)]
            && Queue(Exec(EMPTY, es), k) == []
  {
    var e := Request(k, true, Made.Made);
    FirstComesUp(k);
    assert Legal(Next(Waits(k), e), []);
    ExecMore(Waits(k), e, []);
    ExecMore(Next(EMPTY, e), StreamUp(0), [e] + []);
    ExecMore(EMPTY, e, [StreamUp(0)] + ([e] + []));
    assert [e] + ([StreamUp(0)] + ([e] + [])) == [e, StreamUp(0), e];
  }
}
