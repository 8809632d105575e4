/** Every run of the QUIC pool keeps its table clean and answers every request once. */
module QuicPoolProofs {
  import opened Common
  import opened QuicPool

  // ---- queues -----------------------------------------------------------------

  lemma {:induction false} WithoutMembers(q: seq<nat>, s: nat)
    requires Distinct(q)
    ensures Distinct(Without(q, s)) && forall x :: x in Without(q, s) <==> x in q && x != s
  {
    if q != [] {
      var t := q[1..];
      assert forall i :: 0 <= i < |t| ==> t[i] == q[i + 1];
      WithoutMembers(t, s);
      assert q[0] !in t;
    }
  }

  lemma AppendMembers(q: seq<nat>, s: nat)
    requires Distinct(q) && s !in q
    ensures Distinct(q + [s])
  {
  }

  // ---- requests ---------------------------------------------------------------

  /** The invariant while request `t` has been neither answered nor tied to a session. */
  ghost predicate Held(p: Pool, t: nat) {
    && TableOk(p) && OpensOk(p) && DeadOk(p) && t < |p.calls| && p.calls[t].got == [] && !Waiting(p, t)
    && forall u :: 0 <= u < |p.calls| && u != t ==>
         Answered(p.home, p.calls[u]) || (p.calls[u].got == [] && Waiting(p, u))
  }

  lemma BeginHeld(p: Pool, k: Key)
    requires Inv(p)
    ensures Held(Begin(p, k), |p.calls|) && Begin(p, k).calls[|p.calls|].key == k
  {
    var p1 := Begin(p, k);
    assert forall u :: 0 <= u < |p.calls| ==> p1.calls[u] == p.calls[u];
    assert forall u :: Waiting(p, u) <==> Waiting(p1, u);
  }

  lemma ReplyInv(p: Pool, t: nat, a: Answer)
    requires Held(p, t) && Truthful(p.home, p.calls[t].key, a)
    ensures Inv(Reply(p, t, a))
  {
    var p1 := Reply(p, t, a);
    assert forall u :: Waiting(p, u) <==> Waiting(p1, u);
    forall s | s in p1.opens
      ensures p1.calls[p1.opens[s].ticket] == Call(p1.opens[s].key, [])
    {
      assert Waiting(p, p.opens[s].ticket);
    }
  }

  lemma OpenAnswers(p: Pool, s: nat, o: Open)
    requires Held(p, o.ticket) && s !in p.opens
    ensures AnswersOk(OpenOn(p, s, o))
  {
    var p1 := OpenOn(p, s, o);
    assert p1.opens[s] == o;
    forall u | 0 <= u < |p1.calls| && u != o.ticket && Waiting(p, u)
      ensures Waiting(p1, u)
    {
      var x :| x in p.opens && p.opens[x].ticket == u;
      assert p1.opens[x].ticket == u;
    }
  }

  lemma OpenOpens(p: Pool, s: nat, o: Open)
    requires Held(p, o.ticket) && Idle(p, o.key, s) && p.calls[o.ticket].key == o.key
    ensures OpensOk(OpenOn(p, s, o))
  {
    assert forall x :: x in p.opens ==> Waiting(p, p.opens[x].ticket);
  }

  /** Opening a stream on a session no one else uses. */
  lemma OpenInv(p: Pool, s: nat, o: Open)
    requires Held(p, o.ticket) && Idle(p, o.key, s) && p.calls[o.ticket].key == o.key
    requires forall k :: k in p.conns ==> s !in p.conns[k]
    ensures Inv(OpenOn(p, s, o))
  {
    OpenAnswers(p, s, o);
    OpenOpens(p, s, o);
    forall k, x | k in p.conns && x in p.conns[k]
      ensures Idle(OpenOn(p, s, o), k, x)
    {
      assert Idle(p, k, x);
    }
  }

  lemma FreshHeld(p: Pool, t: nat, k: Key)
    requires Held(p, t)
    ensures var p1 := p.(home := p.home + [k]);
            Held(p1, t) && Idle(p1, k, |p.home|) && forall j :: j in p1.conns ==> |p.home| !in p1.conns[j]
  {
    var p1 := p.(home := p.home + [k]);
    assert forall u :: Waiting(p, u) <==> Waiting(p1, u);
    assert forall s :: s in p.opens ==> s < |p.home| && p1.home[s] == p.home[s];
    forall j, s | j in p.conns && s in p.conns[j]
      ensures Idle(p1, j, s) && s != |p.home|
    {
      assert Idle(p, j, s);
    }
  }

  lemma ConnectFreshInv(p: Pool, t: nat, k: Key, made: Made)
    requires Held(p, t) && p.calls[t].key == k
    ensures Inv(ConnectFresh(p, t, k, made))
  {
    match made
    case NoEngine => ReplyInv(p, t, NotFound);
    case Failed => ReplyInv(p, t, Unreachable);
    case Made =>
      FreshHeld(p, t, k);
      OpenInv(p.(home := p.home + [k]), |p.home|, Open(t, k, false));
  }

  /** Replacing a queue by some of its sessions. */
  lemma ShrinkHeld(p: Pool, t: nat, k: Key, q: seq<nat>)
    requires Held(p, t) && k in p.conns && Distinct(q) && forall s :: s in q ==> s in p.conns[k]
    ensures Held(p.(conns := SetQueue(p.conns, k, q)), t)
  {
    var p1 := p.(conns := SetQueue(p.conns, k, q));
    assert forall u :: Waiting(p, u) <==> Waiting(p1, u);
    forall j, s | j in p1.conns && s in p1.conns[j]
      ensures Idle(p1, j, s)
    {
      assert Idle(p, j, s);
    }
  }

  lemma PopFront(p: Pool, t: nat, k: Key)
    requires Held(p, t) && k in p.conns
    ensures var s := p.conns[k][0]; var p1 := p.(conns := SetQueue(p.conns, k, p.conns[k][1..]));
            Held(p1, t) && Idle(p1, k, s) && forall j :: j in p1.conns ==> s !in p1.conns[j]
  {
    var q := p.conns[k];
    var p1 := p.(conns := SetQueue(p.conns, k, q[1..]));
    assert forall i :: 0 <= i < |q| - 1 ==> q[1..][i] == q[i + 1];
    ShrinkHeld(p, t, k, q[1..]);
    assert Idle(p, k, q[0]);
    forall j | j in p1.conns
      ensures q[0] !in p1.conns[j]
    {
      assert j != k && q[0] in p.conns[j] ==> Idle(p, j, q[0]);
    }
  }

  lemma ConnectInv(p: Pool, t: nat, k: Key, made: Made)
    requires Held(p, t) && p.calls[t].key == k
    ensures Inv(Connect(p, t, k, made))
  {
    if k in p.conns {
      PopFront(p, t, k);
      OpenInv(p.(conns := SetQueue(p.conns, k, p.conns[k][1..])), p.conns[k][0], Open(t, k, true));
    } else {
      ConnectFreshInv(p, t, k, made);
    }
  }

  // ---- answers from the library -----------------------------------------------

  lemma ReleaseOpens(p: Pool, s: nat)
    requires OpensOk(p) && s in p.opens
    ensures OpensOk(p.(opens := p.opens - {s})) && !Waiting(p.(opens := p.opens - {s}), p.opens[s].ticket)
  {
  }

  lemma StillWaiting(p: Pool, s: nat, u: nat)
    requires s in p.opens && u != p.opens[s].ticket && Waiting(p, u)
    ensures Waiting(p.(opens := p.opens - {s}), u)
  {
    var x :| x in p.opens && p.opens[x].ticket == u;
    assert x in p.opens - {s};
  }

  /** Taking the open off a session leaves its request held. */
  lemma ReleaseHeld(p: Pool, s: nat)
    requires Inv(p) && s in p.opens
    ensures Held(p.(opens := p.opens - {s}), p.opens[s].ticket)
  {
    var t := p.opens[s].ticket;
    var p1 := p.(opens := p.opens - {s});
    ReleaseOpens(p, s);
    forall u | 0 <= u < |p.calls| && u != t && Waiting(p, u)
      ensures Waiting(p1, u)
    {
      StillWaiting(p, s, u);
    }
    forall j, x | j in p.conns && x in p.conns[j]
      ensures Idle(p1, j, x)
    {
      assert Idle(p, j, x);
    }
  }

  /** A session with an open is in no queue. */
  lemma NotPooled(p: Pool, s: nat)
    requires Inv(p) && s in p.opens
    ensures forall k :: k in p.conns ==> s !in p.conns[k]
  {
    forall k | k in p.conns
      ensures s !in p.conns[k]
    {
      assert s in p.conns[k] ==> Idle(p, k, s);
    }
  }

  lemma PutHeld(p: Pool, t: nat, k: Key, s: nat)
    requires Held(p, t) && Idle(p, k, s) && forall j :: j in p.conns ==> s !in p.conns[j]
    ensures Held(p.(conns := Put(p.conns, k, s)), t)
  {
    var p1 := p.(conns := Put(p.conns, k, s));
    assert forall u :: Waiting(p, u) <==> Waiting(p1, u);
    if k in p.conns { AppendMembers(p.conns[k], s); }
    forall j, x | j in p1.conns && x in p1.conns[j]
      ensures Idle(p1, j, x)
    {
      assert x == s || Idle(p, j, x);
    }
  }

  lemma ReadyInv(p: Pool, s: nat)
    requires Inv(p) && s in p.opens
    ensures p.opens[s].ticket < |p.calls| && Inv(Ready(p, s))
  {
    var o := p.opens[s];
    var p1 := p.(opens := p.opens - {s});
    ReleaseHeld(p, s);
    NotPooled(p, s);
    PutHeld(p1, o.ticket, o.key, s);
    ReplyInv(p1.(conns := Put(p1.conns, o.key, s)), o.ticket, Stream(s, o.fromPool));
  }

  /** Dropping a session that is in no queue changes nothing. */
  lemma DropAbsent(conns: map<Key, seq<nat>>, k: Key, s: nat)
    requires forall j :: j in conns ==> conns[j] != [] && s !in conns[j]
    ensures Drop(conns, k, s) == conns
  {
    if k in conns { assert Without(conns[k], s) == conns[k]; }
  }

  lemma BuryHeld(p: Pool, t: nat, s: nat)
    requires Held(p, t) && s < |p.home| && s !in p.opens && s !in p.dead
    requires forall j :: j in p.conns ==> s !in p.conns[j]
    ensures var p1 := p.(dead := p.dead + {s}); Held(p1, t) && p1.retries < |p1.dead|
  {
    var p1 := p.(dead := p.dead + {s});
    assert |p1.dead| == |p.dead| + 1;
    assert forall u :: Waiting(p, u) <==> Waiting(p1, u);
    forall j, x | j in p1.conns && x in p1.conns[j]
      ensures Idle(p1, j, x)
    {
      assert Idle(p, j, x);
    }
  }

  lemma DiscardHeld(p: Pool, s: nat)
    requires Inv(p) && s in p.opens
    ensures var p1 := Discard(p, s); Held(p1, p.opens[s].ticket) && p1.retries < |p1.dead|
  {
    var p1 := p.(opens := p.opens - {s});
    ReleaseHeld(p, s);
    NotPooled(p, s);
    DropAbsent(p.conns, p.opens[s].key, s);
    BuryHeld(p1, p.opens[s].ticket, s);
    assert Discard(p, s) == p1.(dead := p1.dead + {s});
  }

  lemma CountRetryHeld(p: Pool, t: nat)
    requires Held(p, t) && p.retries < |p.dead|
    ensures Held(CountRetry(p), t)
  {
    assert forall u :: Waiting(p, u) <==> Waiting(CountRetry(p), u);
    forall k, s | k in p.conns && s in p.conns[k]
      ensures Idle(CountRetry(p), k, s)
    {
      assert Idle(p, k, s);
    }
  }

  lemma LostInv(p: Pool, s: nat, made: Made)
    requires Inv(p) && s in p.opens
    ensures p.opens[s].ticket < |p.calls| && Inv(Lost(p, s, made))
  {
    var o, p1 := p.opens[s], Discard(p, s);
    DiscardHeld(p, s);
    if o.fromPool {
      CountRetryHeld(p1, o.ticket);
      ConnectInv(CountRetry(p1), o.ticket, o.key, made);
    } else {
      ReplyInv(p1, o.ticket, Broken);
    }
  }

  lemma DropMembers(conns: map<Key, seq<nat>>, k: Key, s: nat)
    requires forall j :: j in conns ==> conns[j] != [] && Distinct(conns[j])
    ensures var c := Drop(conns, k, s);
            && (forall j :: j in c ==> j in conns && c[j] != [] && Distinct(c[j]))
            && (forall j, x :: j in c && x in c[j] ==> x in conns[j] && (j == k ==> x != s))
  {
    if k in conns { WithoutMembers(conns[k], s); }
  }

  lemma CloseInv(p: Pool, s: nat)
    requires Inv(p) && s < |p.home| && s !in p.opens
    ensures Inv(Close(p, s))
  {
    var p1 := Close(p, s);
    DropMembers(p.conns, p.home[s], s);
    assert forall u :: Waiting(p, u) <==> Waiting(p1, u);
    forall j, x | j in p1.conns && x in p1.conns[j]
      ensures Idle(p1, j, x)
    {
      assert Idle(p, j, x);
    }
  }

  // ---- every run --------------------------------------------------------------

  lemma StepInv(p: Pool, e: Event)
    requires Inv(p) && Enabled(p, e)
    ensures Inv(Next(p, e))
  {
    match e
    case Request(k, reuse, made) =>
      BeginHeld(p, k);
      if reuse { ConnectInv(Begin(p, k), |p.calls|, k, made); }
      else { ConnectFreshInv(Begin(p, k), |p.calls|, k, made); }
    case StreamUp(s) => ReadyInv(p, s);
    case StreamNull(s, made) => LostInv(p, s, made);
    case Closed(s) => CloseInv(p, s);
  }

  lemma {:induction false} RunInv(p: Pool, es: seq<Event>)
    requires Inv(p) && Legal(p, es)
    ensures Inv(Exec(p, es))
    decreases |es|
  {
    if es != [] {
      StepInv(p, es[0]);
      RunInv(Next(p, es[0]), es[1..]);
    }
  }

  lemma ReachableInv(es: seq<Event>)
    requires Legal(EMPTY, es)
    ensures Inv(Exec(EMPTY, es))
  {
    RunInv(EMPTY, es);
  }

  // ---- what follows -----------------------------------------------------------

  /** A session is in the reuse table at most once, only while its connection is up and no stream is
      requested on it, and no endpoint has an empty queue. */
  lemma PooledOnce(es: seq<Event>, k: Key, i: nat, k': Key, i': nat)
    requires Legal(EMPTY, es)
    ensures var p := Exec(EMPTY, es);
            k in p.conns ==>
              && p.conns[k] != []
              && (i < |p.conns[k]| ==> && p.conns[k][i] !in p.opens && p.conns[k][i] !in p.closed
                                       && p.conns[k][i] !in p.dead)
              && (i < |p.conns[k]| && k' in p.conns && i' < |p.conns[k']| && p.conns[k][i] == p.conns[k'][i'] ==>
                    k == k' && i == i')
  {
    ReachableInv(es);
    var p := Exec(EMPTY, es);
    if k in p.conns && i < |p.conns[k]| {
      assert Idle(p, k, p.conns[k][i]);
      if k' in p.conns && i' < |p.conns[k']| {
        assert Idle(p, k', p.conns[k'][i']);
      }
    }
  }

  /** Every connect request has had exactly one callback, which is an error or a stream on a
      connection to the endpoint asked for; or it has had none yet, and then exactly one session
      is opening a stream for it, on a connection to that endpoint that is up. */
  lemma AnsweredOnce(es: seq<Event>, t: nat)
    requires Legal(EMPTY, es) && t < |Exec(EMPTY, es).calls|
    ensures var p := Exec(EMPTY, es);
            && |p.calls[t].got| <= 1
            && (p.calls[t].got != [] ==> Truthful(p.home, p.calls[t].key, p.calls[t].got[0]))
            && (p.calls[t].got == [] <==> Waiting(p, t))
            && (forall s, s' :: s in p.opens && s' in p.opens && p.opens[s].ticket == t == p.opens[s'].ticket
                  ==> s == s')
            && (forall s :: s in p.opens && p.opens[s].ticket == t ==>
                  s !in p.closed && s < |p.home| && p.home[s] == p.calls[t].key)
  {
    ReachableInv(es);
  }

  /** Retries never outnumber the sessions they used up, nor those the sessions created. */
  lemma RetriesBounded(es: seq<Event>)
    requires Legal(EMPTY, es)
    ensures var p := Exec(EMPTY, es); p.retries <= |p.dead| <= |p.home|
  {
    ReachableInv(es);
    Below(Exec(EMPTY, es).dead, |Exec(EMPTY, es).home|);
  }

  lemma {:induction false} Below(s: set<nat>, n: nat)
    requires forall x :: x in s ==> x < n
    ensures |s| <= n
  {
    if n > 0 {
      Below(s - {n - 1}, n - 1);
      assert n - 1 in s ==> s == (s - {n - 1}) + {n - 1};
      assert n - 1 !in s ==> s == s - {n - 1};
    } else {
      assert s == {};
    }
  }

  lemma StepMonotone(p: Pool, e: Event)
    requires Enabled(p, e)
    ensures var p' := Next(p, e); p.dead <= p'.dead && p.closed <= p'.closed && p.home <= p'.home
  {
  }

  /** A session once discarded or closed stays so, and is never handed out again. */
  lemma StepForward(p: Pool, e: Event, s: nat)
    requires Inv(p) && Enabled(p, e) && (s in p.dead || s in p.closed)
    ensures var p' := Next(p, e); (s in p'.dead || s in p'.closed) && s !in p'.opens
  {
    StepInv(p, e);
    StepMonotone(p, e);
  }
}
