/** The pool as the object that updates its idle queues, proved equal to its functional form. */
module UpstreamPool {
  import opened Common
  import opened RelayModel

  /** What `async_connect` finds: no endpoint, an idle stream, or an endpoint to connect to. */
  datatype Found = NotFound | Idle(stream: StreamId, be: Endpoint) | Dial(be: Endpoint)

  predicate HasQuic(entries: seq<Entry>) {
    exists k :: 0 <= k < |entries| && entries[k].be.proto == Quic
  }

  lemma HasQuicMore(entries: seq<Entry>, e: Entry)
    ensures HasQuic(entries + [e]) <==> HasQuic(entries) || e.be.proto == Quic
  {
    var more := entries + [e];
    assert more[|entries|] == e && forall k :: 0 <= k < |entries| ==> more[k] == entries[k];
  }

  lemma HasQuicSame(entries: seq<Entry>, k: nat, e: Entry)
    requires k < |entries| && e.be == entries[k].be
    ensures HasQuic(entries[k := e]) <==> HasQuic(entries)
  {
    if HasQuic(entries) {
      var j :| 0 <= j < |entries| && entries[j].be.proto == Quic;
      assert entries[k := e][j].be.proto == Quic;
    }
  }

  class UpstreamPool {
    var entries: seq<Entry>
    var rrIndex: nat
    var quicEngine: bool   // quic_engine_ is set

    constructor ()
      ensures Value() == RelayModel.Pool([], 0) && EngineWhenNeeded()
    {
      entries, rrIndex, quicEngine := [], 0, false;
    }

    /** The QUIC client engine exists if and only if there is a QUIC backend. */
    ghost predicate EngineWhenNeeded()
      reads this
    {
      quicEngine <==> HasQuic(entries)
    }

    function Value(): RelayModel.Pool
      reads this
    {
      RelayModel.Pool(entries, rrIndex)
    }

    method AddBackend(be: Endpoint)
      modifies this
      ensures Value() == old(Value()).(entries := old(entries) + [Entry(be, [])])
      ensures old(EngineWhenNeeded()) ==> EngineWhenNeeded()
    {
      HasQuicMore(entries, Entry(be, []));
      entries := entries + [Entry(be, [])];
      if be.proto == Quic && !quicEngine {
        quicEngine := true;
      }
    }

    method CollectCandidates(id: string) returns (c: seq<nat>)
      ensures c == Candidates(entries, id)
    {
      c := [];
      var i := 0;
      while i < |entries|
        invariant i <= |entries| && c + Candidates(entries, id, i) == Candidates(entries, id)
      {
        if entries[i].be.id == id {
          assert c + ([i] + Candidates(entries, id, i + 1)) == c + [i] + Candidates(entries, id, i + 1);
          c := c + [i];
        }
        i := i + 1;
      }
    }

    /** Round-robin over the endpoints of the group; the front of the chosen queue if it has one. */
    method AsyncConnect(id: string) returns (found: Found)
      modifies this
      ensures var p := old(Value()); var k := Chosen(p, id);
              if k == |p.entries| then found == NotFound && Value() == p
              else
                var e := p.entries[k];
                if e.be.proto == Tcp && e.idle != []
                then found == Idle(e.idle[0], e.be) && Value() == Turn(Dequeue(p, k))
                else found == Dial(e.be) && Value() == Turn(p)
      ensures old(EngineWhenNeeded()) ==> EngineWhenNeeded()
    {
      var candidates := CollectCandidates(id);
      if candidates == [] {
        return NotFound;
      }
      var k := candidates[rrIndex % |candidates|];
      rrIndex := (rrIndex + 1) % SIZE_T_LIMIT;
      var entry := entries[k];
      if entry.be.proto == Quic || entry.idle == [] {
        return Dial(entry.be);
      }
      HasQuicSame(entries, k, entry.(idle := entry.idle[1..]));
      entries := entries[k := entry.(idle := entry.idle[1..])];
      return Idle(entry.idle[0], entry.be);
    }

    /** Keeps the stream in the first queue for its server, if there is one with room. */
    method Release(ep: Endpoint, s: StreamId) returns (kept: bool)
      modifies this
      ensures var p := old(Value()); var k := Slot(p, ep);
              kept == (k < |p.entries|) && Value() == if kept then Enqueue(p, k, s) else p
      ensures old(EngineWhenNeeded()) ==> EngineWhenNeeded()
    {
      if ep.proto == Quic {
        return false;
      }
      var i := 0;
      while i < |entries|
        invariant i <= |entries| && FindServer(entries, ep, i) == FindServer(entries, ep)
        invariant entries == old(entries) && rrIndex == old(rrIndex) && quicEngine == old(quicEngine)
      {
        if SameServer(entries[i].be, ep) {
          kept := |entries[i].idle| < MAX_IDLE_PER_ENDPOINT;
          if kept {
            HasQuicSame(entries, i, entries[i].(idle := entries[i].idle + [s]));
            entries := entries[i := entries[i].(idle := entries[i].idle + [s])];
          }
          return;
        }
        i := i + 1;
      }
      return false;
    }
  }
}
