/** The QUIC side of the pool as the object that updates its table, proved equal to `QuicPool`. */
module QuicSessions {
  import opened Common
  import opened QuicPool

  lemma WithoutStep(q: seq<nat>, i: nat, raw: nat)
    requires i < |q| && q[i] != raw
    ensures q[..i] + Without(q[i..], raw) == q[..i + 1] + Without(q[i + 1..], raw)
  {
    assert q[i..][1..] == q[i + 1..];
  }

  method EraseFirst(q: seq<nat>, raw: nat) returns (r: seq<nat>)
    ensures r == Without(q, raw)
  {
    for i := 0 to |q|
      invariant q[..i] + Without(q[i..], raw) == Without(q, raw)
    {
      if q[i] == raw {
        assert q[i..][1..] == q[i + 1..];
        return q[..i] + q[i + 1..];
      }
      WithoutStep(q, i, raw);
    }
    assert q[..|q|] == q && q[|q|..] == [];
    return q;
  }

  class QuicTable {
    var quicConns: map<Key, seq<nat>>
    var pendingQuic: Option<Key>          // the connect that waits for its connection
    ghost var pendingTicket: nat
    ghost var opens: map<nat, Open>
    ghost var home: seq<Key>
    ghost var closed: set<nat>
    ghost var dead: set<nat>
    ghost var calls: seq<Call>
    ghost var retries: nat

    constructor ()
      ensures Value() == EMPTY && pendingQuic.None?
    {
      pendingQuic, pendingTicket := None, 0;
      quicConns, opens, home, closed, dead, calls, retries := map[], map[], [], {}, {}, [], 0;
    }

    ghost function Value(): Pool
      reads this
    {
      Pool(quicConns, opens, home, closed, dead, calls, retries)
    }

    /** Erases a session from its queue, and the queue with it when nothing is left. */
    method RemoveQuicConn(k: Key, raw: nat)
      modifies this`quicConns
      ensures quicConns == Drop(old(quicConns), k, raw)
    {
      if k !in quicConns {
        return;
      }
      var q := EraseFirst(quicConns[k], raw);
      if q == [] {
        quicConns := quicConns - {k};
      } else {
        quicConns := quicConns[k := q];
      }
    }

    /** The engine has a new connection.  The connect in the slot asks it for a stream and frees the
        slot; without one the connection is not used. */
    method OnClientConn()
      modifies this
      ensures pendingQuic.None?
      ensures match old(pendingQuic)
              case None => Value() == old(Value())
              case Some(k) =>
                var p := old(Value());
                Value() == OpenOn(p.(home := p.home + [k]), |p.home|, Open(old(pendingTicket), k, false))
    {
      if pendingQuic.None? {
        return;
      }
      var k := pendingQuic.value;
      pendingQuic := None;
      opens, home := opens[|home| := Open(pendingTicket, k, false)], home + [k];
    }

    /** The slot is free when a connect begins and free again when it returns, for the engine calls
        `OnClientConn` before its own connect returns. */
    method QuicConnectFresh(ghost t: nat, k: Key, made: Made)
      requires t < |calls| && pendingQuic.None?
      modifies this
      ensures Value() == ConnectFresh(old(Value()), t, k, made) && pendingQuic.None?
    {
      if made == NoEngine {
        calls := calls[t := Call(calls[t].key, calls[t].got + [NotFound])];
        return;
      }
      pendingQuic, pendingTicket := Some(k), t;
      assert Value() == old(Value());
      if made == Made.Made {
        OnClientConn();
      } else {
        pendingQuic := None;
        calls := calls[t := Call(calls[t].key, calls[t].got + [Unreachable])];
      }
    }

    method QuicConnect(ghost t: nat, k: Key, made: Made)
      requires t < |calls| && pendingQuic.None?
      modifies this
      ensures Value() == Connect(old(Value()), t, k, made) && pendingQuic.None?
    {
      if k in quicConns && quicConns[k] != [] {
        var pooled := quicConns[k][0];
        var rest := quicConns[k][1..];
        quicConns := if rest == [] then quicConns - {k} else quicConns[k := rest];
        opens := opens[pooled := Open(t, k, true)];
      } else {
        QuicConnectFresh(t, k, made);
      }
    }

    /** The stream asked for has come: the session goes back to the table. */
    method OnStream(session: nat, k: Key, fromPool: bool)
      requires session in opens && opens[session].ticket < |calls|
      requires opens[session].key == k && opens[session].fromPool == fromPool
      modifies this
      ensures Value() == Ready(old(Value()), session) && pendingQuic == old(pendingQuic)
    {
      quicConns := quicConns[k := (if k in quicConns then quicConns[k] else []) + [session]];
      ghost var t := opens[session].ticket;
      calls := calls[t := Call(calls[t].key, calls[t].got + [Stream(session, fromPool)])];
      opens := opens - {session};
    }

    /** No stream will come on this session. */
    method OnNoStream(session: nat, k: Key, fromPool: bool, made: Made)
      requires session in opens && opens[session].ticket < |calls|
      requires opens[session].key == k && opens[session].fromPool == fromPool && pendingQuic.None?
      modifies this
      ensures Value() == Lost(old(Value()), session, made) && pendingQuic.None?
    {
      RemoveQuicConn(k, session);
      ghost var t := opens[session].ticket;
      opens, dead := opens - {session}, dead + {session};
      if fromPool {
        retries := retries + 1;
        QuicConnect(t, k, made);
      } else {
        calls := calls[t := Call(calls[t].key, calls[t].got + [Broken])];
      }
    }

    /** `k` is the endpoint the connection was made for. */
    method OnClosed(session: nat, k: Key)
      requires session < |home| && home[session] == k
      modifies this
      ensures Value() == Close(old(Value()), session) && pendingQuic == old(pendingQuic)
    {
      RemoveQuicConn(k, session);
      closed := closed + {session};
    }
  }
}
