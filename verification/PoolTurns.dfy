/**
  Round-robin over runs.

  One index serves every group of backends, so which endpoint a request gets depends on all
  the requests before it, whatever group they asked for.  A group gets its round, each
  endpoint once, exactly when the turns it drew differ modulo the size of the group.
 */
module PoolTurns {
  import opened Common
  import opened RelayModel

  /** What a relay does to the pool: ask for a group, or give a stream back. */
  datatype Use = Asks(id: string) | Gives(ep: Endpoint, s: StreamId)

  function After(p: Pool, u: Use): Pool {
    match u
    case Asks(id) =>
      var k := Chosen(p, id);
      if k == |p.entries| then p
      else if p.entries[k].be.proto == Tcp && p.entries[k].idle != [] then Turn(Dequeue(p, k))
      else Turn(p)
    case Gives(ep, s) => var k := Slot(p, ep); if k == |p.entries| then p else Enqueue(p, k, s)
  }

  /** The pool before the use at `t`. */
  function PoolAt(p: Pool, us: seq<Use>, t: nat): Pool
    requires t <= |us|
  {
    if t == 0 then p else After(PoolAt(p, us, t - 1), us[t - 1])
  }

  // ---- the pool of a worker ---------------------------------------------------

  /** What the completion of `op` does to the pool. */
  function UsesIn(r: Relay, op: Op, o: Outcome): seq<Use> {
    match op
    case ParseRequest =>
      if o.Parsed? && o.req.target.Routed? && o.req.target.backendId != "" then [Asks(o.req.target.backendId)] else []
    case WriteResponse(keepAlive, _) =>
      if keepAlive && r.peer.backend.Stream? then [Gives(r.peer.endpoint, r.peer.backend.id)] else []
    case _ => []
  }

  /** What an event does to the pool of the worker. */
  function UsesOf(w: World, e: Event): seq<Use>
    requires Enabled(w, e)
  {
    if e.Complete? then UsesIn(w.relays[e.relay], Nth(w.relays[e.relay].ctl.pending, e.index), e.outcome) else []
  }

  function Uses(w: World, run: seq<Event>): seq<Use>
    requires Legal(w, run)
    decreases run
  {
    if run == [] then [] else UsesOf(w, run[0]) + Uses(Next(w, run[0]), run[1..])
  }

  lemma AskedOf(r: Relay, sh: Shared, id: string, hasBody: bool)
    ensures PoolConnect(r, sh, id, hasBody).sh.pool == After(sh.pool, Asks(id))
  {
  }

  lemma UseInParse(r: Relay, sh: Shared, o: Outcome)
    requires Fits(ParseRequest, o)
    ensures var us := UsesIn(r, ParseRequest, o);
            OnComplete(r, sh, ParseRequest, o).sh.pool == if us == [] then sh.pool else After(sh.pool, us[0])
  {
    if o.Parsed? && o.req.target.Routed? {
      AskedOf(BeginExchange(r, o.req), CountRequest(sh), o.req.target.backendId, o.req.hasBody);
    }
  }

  lemma UseIn(r: Relay, sh: Shared, op: Op, o: Outcome)
    requires Fits(op, o) && !op.ParseRequest?
    ensures var us := UsesIn(r, op, o);
            OnComplete(r, sh, op, o).sh.pool == if us == [] then sh.pool else After(sh.pool, us[0])
  {
  }

  lemma UseOf(w: World, e: Event)
    requires Enabled(w, e)
    ensures |UsesOf(w, e)| <= 1
    ensures Next(w, e).sh.pool == if UsesOf(w, e) == [] then w.sh.pool else After(w.sh.pool, UsesOf(w, e)[0])
  {
    if e.Complete? {
      var r := w.relays[e.relay];
      var op := Nth(r.ctl.pending, e.index);
      if op.ParseRequest? { UseInParse(Drop(r, e.index), w.sh, e.outcome); }
      else { UseIn(Drop(r, e.index), w.sh, op, e.outcome); }
    }
  }

  lemma {:induction false} PoolShift(p: Pool, us: seq<Use>, t: nat)
    requires t < |us|
    ensures PoolAt(p, us, t + 1) == PoolAt(After(p, us[0]), us[1..], t)
  {
    if t > 0 { PoolShift(p, us, t - 1); }
  }

  /** The pool of a worker is the pool its relays' uses of it leave. */
  lemma {:induction false} WorkerPool(w: World, run: seq<Event>)
    requires Legal(w, run)
    ensures Exec(w, run).sh.pool == PoolAt(w.sh.pool, Uses(w, run), |Uses(w, run)|)
    decreases run
  {
    if run != [] {
      var first, more := UsesOf(w, run[0]), Uses(Next(w, run[0]), run[1..]);
      UseOf(w, run[0]);
      WorkerPool(Next(w, run[0]), run[1..]);
      if first == [] {
        assert first + more == more;
      } else {
        PoolShift(w.sh.pool, first + more, |more|);
        assert (first + more)[1..] == more;
      }
    }
  }

  // ---- turns ------------------------------------------------------------------

  /** A request for a group that has an endpoint draws a turn; any other use does not. */
  predicate Draws(p: Pool, u: Use) {
    u.Asks? && Candidates(p.entries, u.id) != []
  }

  /** The index after a turn. */
  function Succ(x: nat): nat {
    (x + 1) % SIZE_T_LIMIT
  }

  /** The turn the use at `t` draws if it draws one: whatever group drew the ones before it. */
  function TurnAt(p: Pool, us: seq<Use>, t: nat): nat
    requires t <= |us|
  {
    if t == 0 then p.rr
    else
      var x := TurnAt(p, us, t - 1);
      if Draws(p, us[t - 1]) then Succ(x) else x
  }

  /** How many turns are drawn before the use at `t`. */
  function Drawn(p: Pool, us: seq<Use>, t: nat): nat
    requires t <= |us|
  {
    if t == 0 then 0 else Drawn(p, us, t - 1) + if Draws(p, us[t - 1]) then 1 else 0
  }

  /** The turn is the number of turns drawn before, in the width of the index. */
  lemma {:induction false} TurnCounts(p: Pool, us: seq<Use>, t: nat)
    requires p.rr < SIZE_T_LIMIT && t <= |us|
    ensures TurnAt(p, us, t) == (p.rr + Drawn(p, us, t)) % SIZE_T_LIMIT
  {
    if t > 0 {
      TurnCounts(p, us, t - 1);
      SuccWraps(p.rr + Drawn(p, us, t - 1));
    }
  }

  lemma SuccWraps(a: nat)
    ensures Succ(a % SIZE_T_LIMIT) == (a + 1) % SIZE_T_LIMIT
  {
  }

  predicate SameGroups(p: Pool, q: Pool) {
    |p.entries| == |q.entries| && forall k :: 0 <= k < |p.entries| ==> p.entries[k].be == q.entries[k].be
  }

  lemma {:induction false} SameCandidates(p: Pool, q: Pool, id: string, from: nat)
    requires SameGroups(p, q) && from <= |p.entries|
    ensures Candidates(p.entries, id, from) == Candidates(q.entries, id, from)
    decreases |p.entries| - from
  {
    if from < |p.entries| { SameCandidates(p, q, id, from + 1); }
  }

  lemma AfterKeeps(p: Pool, u: Use)
    ensures SameGroups(p, After(p, u))
    ensures After(p, u).rr == if Draws(p, u) then Succ(p.rr) else p.rr
  {
  }

  lemma {:induction false} GroupsStay(p: Pool, us: seq<Use>, t: nat)
    requires t <= |us|
    ensures SameGroups(p, PoolAt(p, us, t))
  {
    if t > 0 {
      GroupsStay(p, us, t - 1);
      AfterKeeps(PoolAt(p, us, t - 1), us[t - 1]);
    }
  }

  lemma CandidatesStay(p: Pool, us: seq<Use>, t: nat, id: string)
    requires t <= |us|
    ensures Candidates(PoolAt(p, us, t).entries, id) == Candidates(p.entries, id)
  {
    GroupsStay(p, us, t);
    SameCandidates(p, PoolAt(p, us, t), id, 0);
  }

  lemma IndexMore(p: Pool, q: Pool, u: Use)
    requires SameGroups(p, q)
    ensures After(q, u).rr == if Draws(p, u) then Succ(q.rr) else q.rr
  {
    if u.Asks? { SameCandidates(p, q, u.id, 0); }
    AfterKeeps(q, u);
  }

  /** The index of the pool is the turn. */
  lemma {:induction false} IndexAt(p: Pool, us: seq<Use>, t: nat)
    requires t <= |us|
    ensures PoolAt(p, us, t).rr == TurnAt(p, us, t)
  {
    if t > 0 {
      IndexAt(p, us, t - 1);
      GroupsStay(p, us, t - 1);
      IndexMore(p, PoolAt(p, us, t - 1), us[t - 1]);
    }
  }

  /** The endpoint a request for group `id` at `t` gets. */
  function Pick(p: Pool, us: seq<Use>, id: string, t: nat): nat
    requires t < |us|
  {
    Chosen(PoolAt(p, us, t), id)
  }

  lemma PickOf(p: Pool, us: seq<Use>, id: string, t: nat, q: Pool)
    requires t < |us| && Candidates(p.entries, id) != [] && q == PoolAt(p, us, t)
    ensures var c := Candidates(p.entries, id); Chosen(q, id) == c[TurnAt(p, us, t) % |c|]
  {
    CandidatesStay(p, us, t, id);
    IndexAt(p, us, t);
  }

  lemma PickAt(p: Pool, us: seq<Use>, id: string, t: nat)
    requires t < |us| && Candidates(p.entries, id) != []
    ensures var c := Candidates(p.entries, id); Pick(p, us, id, t) == c[TurnAt(p, us, t) % |c|]
  {
    PickOf(p, us, id, t, PoolAt(p, us, t));
  }

  // ---- rounds -----------------------------------------------------------------

  lemma {:induction false} CandidatesIncrease(entries: seq<Entry>, id: string, from: nat, j: nat, k: nat)
    requires from <= |entries| && j < k < |Candidates(entries, id, from)|
    ensures Candidates(entries, id, from)[j] < Candidates(entries, id, from)[k]
    decreases |entries| - from
  {
    if from < |entries| {
      var tail := Candidates(entries, id, from + 1);
      if entries[from].be.id != id {
        CandidatesIncrease(entries, id, from + 1, j, k);
      } else if j > 0 {
        CandidatesIncrease(entries, id, from + 1, j - 1, k - 1);
      } else {
        assert tail[k - 1] >= from + 1;
      }
    }
  }

  lemma CandidatesDiffer(entries: seq<Entry>, id: string, j: nat, k: nat)
    requires j < |Candidates(entries, id)| && k < |Candidates(entries, id)| && j != k
    ensures Candidates(entries, id)[j] != Candidates(entries, id)[k]
  {
    if j < k { CandidatesIncrease(entries, id, 0, j, k); } else { CandidatesIncrease(entries, id, 0, k, j); }
  }

  /** `times` are moments at which group `id`, of as many endpoints, is asked for. */
  predicate Round(p: Pool, us: seq<Use>, id: string, times: seq<nat>) {
    && |times| == |Candidates(p.entries, id)| > 0
    && forall i :: 0 <= i < |times| ==> times[i] < |us| && us[times[i]] == Asks(id)
  }

  /** The endpoints the requests of a round get. */
  function Picks(p: Pool, us: seq<Use>, id: string, times: seq<nat>): (ks: seq<nat>)
    requires Round(p, us, id, times)
    ensures |ks| == |times| && forall i :: 0 <= i < |ks| ==> ks[i] == Pick(p, us, id, times[i])
  {
    seq(|times|, i requires 0 <= i < |times| => Pick(p, us, id, times[i]))
  }

  /** The turns of a round, modulo the size of the group. */
  function Residues(p: Pool, us: seq<Use>, id: string, times: seq<nat>): (rs: seq<nat>)
    requires Round(p, us, id, times)
    ensures |rs| == |times| && forall i :: 0 <= i < |rs| ==> rs[i] == TurnAt(p, us, times[i]) % |times|
  {
    seq(|times|, i requires 0 <= i < |times| => TurnAt(p, us, times[i]) % |times|)
  }

  predicate Once(xs: seq<nat>, v: nat) {
    exists i :: 0 <= i < |xs| && xs[i] == v && forall k :: 0 <= k < |xs| && xs[k] == v ==> k == i
  }

  /** Each endpoint of the group is chosen exactly once. */
  predicate Fair(p: Pool, us: seq<Use>, id: string, times: seq<nat>)
    requires Round(p, us, id, times)
  {
    forall j :: 0 <= j < |times| ==> Once(Picks(p, us, id, times), Candidates(p.entries, id)[j])
  }

  predicate Distinct(xs: seq<nat>) {
    forall i, k :: 0 <= i < k < |xs| ==> xs[i] != xs[k]
  }

  function Below(n: nat): (s: set<nat>)
    ensures |s| == n && forall x: nat :: x in s <==> x < n
  {
    if n == 0 then {} else Below(n - 1) + {n - 1}
  }

  function Members(xs: seq<nat>): (s: set<nat>)
    ensures forall x :: x in s <==> x in xs
  {
    if xs == [] then {} else Members(xs[1..]) + {xs[0]}
  }

  lemma {:induction false} DistinctMembers(xs: seq<nat>)
    requires Distinct(xs)
    ensures |Members(xs)| == |xs|
  {
    if xs != [] {
      DistinctMembers(xs[1..]);
      assert xs[0] !in xs[1..] && xs[0] !in Members(xs[1..]);
    }
  }

  lemma SubsetSize(s: set<nat>, t: set<nat>)
    requires s <= t
    ensures |s| <= |t|
  {
    assert t == s + (t - s) && |s + (t - s)| == |s| + |t - s|;
  }

  /** As many different numbers below `n` as there are: each occurs. */
  lemma Pigeons(xs: seq<nat>, n: nat, v: nat)
    requires Distinct(xs) && |xs| == n && (forall i :: 0 <= i < n ==> xs[i] < n) && v < n
    ensures v in xs
  {
    DistinctMembers(xs);
    if v !in xs {
      SubsetSize(Members(xs), Below(n) - {v});
      assert false;
    }
  }

  /** Each of the `n` numbers occurs once exactly when no two entries are the same. */
  lemma EachOnceIff(xs: seq<nat>)
    requires forall i :: 0 <= i < |xs| ==> xs[i] < |xs|
    ensures (forall v :: 0 <= v < |xs| ==> Once(xs, v)) <==> Distinct(xs)
  {
    if Distinct(xs) {
      forall v | 0 <= v < |xs|
        ensures Once(xs, v)
      {
        Pigeons(xs, |xs|, v);
      }
    }
    if forall v :: 0 <= v < |xs| ==> Once(xs, v) {
      forall i, k | 0 <= i < k < |xs|
        ensures xs[i] != xs[k]
      {
        assert Once(xs, xs[i]);
      }
    }
  }

  lemma PickIs(p: Pool, us: seq<Use>, id: string, times: seq<nat>, k: nat, j: nat)
    requires Round(p, us, id, times) && k < |times| && j < |times|
    ensures Pick(p, us, id, times[k]) == Candidates(p.entries, id)[j] <==> TurnAt(p, us, times[k]) % |times| == j
  {
    var x := TurnAt(p, us, times[k]) % |times|;
    PickAt(p, us, id, times[k]);
    if x != j { CandidatesDiffer(p.entries, id, x, j); }
  }

  /** Values that agree in where they are `v` and `u` agree in whether that is once. */
  lemma OnceAlike(xs: seq<nat>, v: nat, ys: seq<nat>, u: nat)
    requires |xs| == |ys| && forall k :: 0 <= k < |xs| ==> (xs[k] == v <==> ys[k] == u)
    ensures Once(xs, v) <==> Once(ys, u)
  {
    if Once(xs, v) {
      var i :| 0 <= i < |xs| && xs[i] == v && forall k :: 0 <= k < |xs| && xs[k] == v ==> k == i;
      assert ys[i] == u;
    }
    if Once(ys, u) {
      var i :| 0 <= i < |ys| && ys[i] == u && forall k :: 0 <= k < |ys| && ys[k] == u ==> k == i;
      assert xs[i] == v;
    }
  }

  lemma PickedOnce(p: Pool, us: seq<Use>, id: string, times: seq<nat>, j: nat)
    requires Round(p, us, id, times) && j < |times|
    ensures Once(Picks(p, us, id, times), Candidates(p.entries, id)[j]) <==> Once(Residues(p, us, id, times), j)
  {
    var ks, rs, c := Picks(p, us, id, times), Residues(p, us, id, times), Candidates(p.entries, id);
    forall k | 0 <= k < |ks|
      ensures ks[k] == c[j] <==> rs[k] == j
    {
      PickIs(p, us, id, times, k, j);
    }
    OnceAlike(ks, c[j], rs, j);
  }

  /** Whatever groups are asked for in between: as many requests as a group has endpoints fall
      on each of them exactly once if and only if their turns differ modulo that number. */
  lemma FairIff(p: Pool, us: seq<Use>, id: string, times: seq<nat>)
    requires Round(p, us, id, times)
    ensures Fair(p, us, id, times) <==> Distinct(Residues(p, us, id, times))
  {
    forall j | 0 <= j < |times|
      ensures Once(Picks(p, us, id, times), Candidates(p.entries, id)[j]) <==> Once(Residues(p, us, id, times), j)
    {
      PickedOnce(p, us, id, times, j);
    }
    EachOnceIff(Residues(p, us, id, times));
  }

  // ---- one group at a time ----------------------------------------------------

  lemma Multiple(n: int, d: int)
    requires n > 0
    ensures (d >= 1 ==> n * d >= n) && (d <= -1 ==> n * d <= -n)
  {
    assert n * d == n + n * (d - 1) == n * (d + 1) - n;
  }

  lemma Remainder(q: nat, n: nat, x: nat)
    requires x < n
    ensures (q * n + x) % n == x
  {
    var a := q * n + x;
    var d := a / n - q;
    assert n * d == n * (a / n) - n * q;
    assert a == n * (a / n) + a % n;
    Multiple(n, d);
  }

  /** Counting on from `a` goes around the circle. */
  lemma Around(a: nat, i: nat, n: nat)
    requires i < n
    ensures (a + i) % n == if a % n + i < n then a % n + i else a % n + i - n
  {
    var q, m := a / n, a % n;
    assert a == q * n + m;
    if m + i < n {
      Remainder(q, n, m + i);
    } else {
      Remainder(q + 1, n, m + i - n);
      assert (q + 1) * n + (m + i - n) == q * n + m + i;
    }
  }

  /** From the first request of the round to the last, each draws the next turn. */
  predicate InTurn(p: Pool, us: seq<Use>, id: string, times: seq<nat>)
    requires Round(p, us, id, times)
  {
    && (forall i, k :: 0 <= i < k < |times| ==> times[i] < times[k])
    && forall t :: times[0] <= t < times[|times| - 1] && Draws(p, us[t]) ==> t in times
  }

  lemma {:induction false} SameTurn(p: Pool, us: seq<Use>, a: nat, b: nat)
    requires a <= b <= |us| && forall t :: a <= t < b ==> !Draws(p, us[t])
    ensures TurnAt(p, us, b) == TurnAt(p, us, a)
    decreases b - a
  {
    if a < b { SameTurn(p, us, a, b - 1); }
  }

  lemma NextTurn(p: Pool, us: seq<Use>, id: string, times: seq<nat>, i: nat)
    requires Round(p, us, id, times) && InTurn(p, us, id, times) && i + 1 < |times|
    ensures TurnAt(p, us, times[i + 1]) == Succ(TurnAt(p, us, times[i]))
  {
    forall t | times[i] + 1 <= t < times[i + 1]
      ensures !Draws(p, us[t])
    {
      if Draws(p, us[t]) { Between(times, i, t); }
    }
    SameTurn(p, us, times[i] + 1, times[i + 1]);
  }

  /** Nothing lies between neighbours. */
  lemma Between(times: seq<nat>, i: nat, t: nat)
    requires i + 1 < |times| && times[i] < t < times[i + 1]
    requires forall j, k :: 0 <= j < k < |times| ==> times[j] < times[k]
    ensures t !in times
  {
  }

  lemma {:induction false} RowTurn(p: Pool, us: seq<Use>, id: string, times: seq<nat>, i: nat)
    requires Round(p, us, id, times) && InTurn(p, us, id, times) && i < |times|
    requires TurnAt(p, us, times[0]) + |times| <= SIZE_T_LIMIT
    ensures TurnAt(p, us, times[i]) == TurnAt(p, us, times[0]) + i
  {
    if i > 0 {
      RowTurn(p, us, id, times, i - 1);
      NextTurn(p, us, id, times, i - 1);
    }
  }

  lemma Differ(a: nat, i: nat, k: nat, n: nat)
    requires i < k < n
    ensures (a + i) % n != (a + k) % n
  {
    Around(a, i, n);
    Around(a, k, n);
  }

  /** While no other group draws a turn, and the index does not wrap, every round is fair. */
  lemma OncePerRound(p: Pool, us: seq<Use>, id: string, times: seq<nat>)
    requires Round(p, us, id, times) && InTurn(p, us, id, times)
    requires TurnAt(p, us, times[0]) + |times| <= SIZE_T_LIMIT
    ensures Fair(p, us, id, times)
  {
    var rs := Residues(p, us, id, times);
    forall i, k | 0 <= i < k < |times|
      ensures rs[i] != rs[k]
    {
      RowTurn(p, us, id, times, i);
      RowTurn(p, us, id, times, k);
      Differ(TurnAt(p, us, times[0]), i, k, |times|);
    }
    FairIff(p, us, id, times);
  }

  // ---- groups that alternate --------------------------------------------------

  /** `n` requests, for `a` and `b` by turns. */
  function Alternating(a: string, b: string, n: nat): (us: seq<Use>)
    ensures |us| == n && forall t :: 0 <= t < n ==> us[t] == Asks(if t % 2 == 0 then a else b)
  {
    seq(n, t requires 0 <= t < n => Asks(if t % 2 == 0 then a else b))
  }

  /** While every use draws a turn, turns are even and odd in turn. */
  lemma {:induction false} TurnParity(p: Pool, us: seq<Use>, t: nat)
    requires t <= |us| && forall i :: 0 <= i < t ==> Draws(p, us[i])
    ensures TurnAt(p, us, t) % 2 == (p.rr + t) % 2
  {
    if t > 0 {
      TurnParity(p, us, t - 1);
      SuccParity(TurnAt(p, us, t - 1));
    }
  }

  lemma SuccParity(x: nat)
    ensures Succ(x) % 2 == (x + 1) % 2
  {
    assert x + 1 == (x + 1) / SIZE_T_LIMIT * SIZE_T_LIMIT + Succ(x);
  }

  lemma EvenPick(p: Pool, us: seq<Use>, id: string, t: nat)
    requires |Candidates(p.entries, id)| == 2 && t < |us| && t % 2 == 0
    requires forall i :: 0 <= i < t ==> Draws(p, us[i])
    ensures Pick(p, us, id, t) == Candidates(p.entries, id)[p.rr % 2]
  {
    PickAt(p, us, id, t);
    TurnParity(p, us, t);
    EvenSpot(TurnAt(p, us, t), p.rr, t);
  }

  lemma EvenSpot(turn: nat, rr: nat, t: nat)
    requires turn % 2 == (rr + t) % 2 && t % 2 == 0
    ensures turn % 2 == rr % 2
  {
  }

  /** However long two groups alternate, the first, of two endpoints, gets the same one every time. */
  lemma AlternationStarves(p: Pool, a: string, b: string, n: nat, t: nat)
    requires |Candidates(p.entries, a)| == 2 && Candidates(p.entries, b) != []
    requires t < n && t % 2 == 0
    ensures Pick(p, Alternating(a, b, n), a, t) == Candidates(p.entries, a)[p.rr % 2]
  {
    EvenPick(p, Alternating(a, b, n), a, t);
  }

  const FIRST := Endpoint("a", "10.0.0.1", 80, Tcp)
  const SECOND := Endpoint("a", "10.0.0.2", 80, Tcp)
  const OTHER := Endpoint("b", "10.0.0.3", 80, Tcp)

  /** Two endpoints of `a` and one of `b`, before the first request. */
  const MIXED := Pool([Entry(FIRST, []), Entry(SECOND, []), Entry(OTHER, [])], 0)

  /** A round that is not fair: the requests of `a` at 0 and 2 both get its first endpoint. */
  lemma RoundUnfair()
    ensures Candidates(MIXED.entries, "a") == [0, 1]
    ensures var us := Alternating("a", "b", 3);
            && Pick(MIXED, us, "a", 0) == Pick(MIXED, us, "a", 2) == 0
            && Round(MIXED, us, "a", [0, 2]) && !Fair(MIXED, us, "a", [0, 2])
  {
    var us := Alternating("a", "b", 3);
    MixedGroups();
    AlternationStarves(MIXED, "a", "b", 3, 0);
    AlternationStarves(MIXED, "a", "b", 3, 2);
    var ks := Picks(MIXED, us, "a", [0, 2]);
    assert ks[0] == 0 && ks[1] == 0;
    assert !Once(ks, Candidates(MIXED.entries, "a")[0]);
  }

  lemma MixedGroups()
    ensures Candidates(MIXED.entries, "a") == [0, 1] && Candidates(MIXED.entries, "b") == [2]
  {
    var es := MIXED.entries;
    assert Candidates(es, "a", 3) == [] && Candidates(es, "b", 3) == [];
    assert Candidates(es, "a", 2) == [] && Candidates(es, "b", 2) == [2];
    assert Candidates(es, "a", 1) == [1] && Candidates(es, "b", 1) == [2];
  }
}
