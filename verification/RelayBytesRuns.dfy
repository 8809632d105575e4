/** Over every run: when idle streams are at a message boundary, and exactly when one is not. */
module RelayBytesRuns {
  import opened Common
  import opened Network
  import opened RelayModel
  import opened RelayInvariant
  import opened RelaySteps
  import opened RelaySafety
  import opened RelayRest
  import opened RelayBytes
  import opened RelayBytesProofs
  import H1Head
  import H1Body
  import HP = H1HeadProofs
  import BP = H1BodyProofs

  // ---- one event --------------------------------------------------------------

  lemma CleanShrinks(v: Wires, v': Wires, k: nat, s: StreamId, next: StreamId)
    requires OnlyAt(v, v', k, Stream(s), next) && next !in v.nets
    ensures CleanSet(v) - {s} <= CleanSet(v')
  {
  }

  /** Where no stream is read, none becomes unclean. */
  lemma CleanStays(b: BWorld, be: BEvent)
    requires BEnabled(b, be) && !be.e.Accept? && !ReadsReply(b.w, be.e) && !ForwardsReply(b.w, be.e)
    requires b.w.sh.streams.next !in b.v.nets
    ensures CleanSet(b.v) <= CleanSet(NextWires(b, be))
    ensures OpensStream(b.w, be.e) ==> b.w.sh.streams.next in CleanSet(NextWires(b, be))
    ensures be.e.relay < |NextWires(b, be).bodies| && NextWires(b, be).bodies == b.v.bodies
  {
  }

  lemma CleansStep(b: BWorld, be: BEvent)
    requires BInv(b) && BEnabled(b, be) && !be.e.Accept? && Orderly(b, be)
    ensures var k := be.e.relay;
            Cleans(b.w.relays[k], b.w.sh, be.e, CleanSet(b.v), Ends(b.w.relays[k], b.v, b.v.bodies[k]),
                   CleanSet(NextWires(b, be)), EndsNext(b, be))
  {
    var r := b.w.relays[be.e.relay];
    assert LocalOk(r);
    if ReadsReply(b.w, be.e) {
      ReadStep(b, be);
    } else if ForwardsReply(b.w, be.e) {
      OnlyOne(r, be.e.index);
      ForwardStep(b, be);
    } else {
      CleanStays(b, be);
    }
  }

  lemma ReadStep(b: BWorld, be: BEvent)
    requires BInv(b) && BEnabled(b, be) && ReadsReply(b.w, be.e) && Orderly(b, be)
    ensures var s := b.w.relays[be.e.relay].peer.backend.id;
            && CleanSet(b.v) - {s} <= CleanSet(NextWires(b, be))
            && (be.e.outcome.Answered? && be.e.outcome.keepAlive && s in CleanSet(b.v) ==> EndsNext(b, be))
  {
    TouchesOnly(b, be);
    CleanShrinks(b.v, NextWires(b, be), be.e.relay, b.w.relays[be.e.relay].peer.backend.id, b.w.sh.streams.next);
    ReadsCleans(b, be);
  }

  lemma ForwardStep(b: BWorld, be: BEvent)
    requires BInv(b) && BEnabled(b, be) && ForwardsReply(b.w, be.e) && Orderly(b, be) && be.e.index == 0
    ensures var k := be.e.relay; var s := b.w.relays[k].peer.backend.id;
            && CleanSet(b.v) - {s} <= CleanSet(NextWires(b, be))
            && (OpOf(b.w, be.e).value.keepAlive && Ends(b.w.relays[k], b.v, b.v.bodies[k]) ==>
                  s in CleanSet(NextWires(b, be)))
  {
    TouchesOnly(b, be);
    CleanShrinks(b.v, NextWires(b, be), be.e.relay, b.w.relays[be.e.relay].peer.backend.id, b.w.sh.streams.next);
    ForwardsCleans(b, be);
  }

  /** What is foretold of a response is true of the relay that forwards it. */
  lemma EndsAgree(b: BWorld, be: BEvent, r': Relay)
    requires BInv(b) && BEnabled(b, be) && !be.e.Accept? && r' == Act(b.w.relays[be.e.relay], b.w.sh, be.e).r
    requires Forwarding(r') && EndsNext(b, be)
    ensures be.e.relay < |NextWires(b, be).bodies| && Ends(r', NextWires(b, be), NextWires(b, be).bodies[be.e.relay])
  {
    var r := b.w.relays[be.e.relay];
    assert LocalOk(r);
    ForwardingFrom(r, b.w.sh, be.e);
    if be.e.Complete? {
      EndsRead(b, be);
    } else {
      EndsQuiet(b, be, r');
    }
  }

  lemma EndsQuiet(b: BWorld, be: BEvent, r': Relay)
    requires BEnabled(b, be) && !be.e.Accept? && !be.e.Complete? && EndsNext(b, be)
    requires r'.peer == b.w.relays[be.e.relay].peer && r'.ctl.pending == b.w.relays[be.e.relay].ctl.pending
    ensures be.e.relay < |NextWires(b, be).bodies| && Ends(r', NextWires(b, be), NextWires(b, be).bodies[be.e.relay])
  {
  }

  lemma EndsRead(b: BWorld, be: BEvent)
    requires BEnabled(b, be) && ReadsReply(b.w, be.e) && be.e.outcome.Answered? && EndsNext(b, be)
    ensures var k := be.e.relay; var s := b.w.relays[k].peer.backend.id; var v' := NextWires(b, be);
            && k < |v'.bodies| && s in v'.nets
            && WillEnd(Forwarded(v'.bodies[k], be.e.outcome.hasBody && !b.w.relays[k].ex.isHead), v'.nets[s])
  {
  }

  // ---- all relays -------------------------------------------------------------

  /** Another relay sees its own stream and body as before. */
  lemma OtherEnds(r: Relay, v: Wires, v': Wires, j: nat, k: nat, s: Link, next: StreamId)
    requires OnlyAt(v, v', k, s, next) && j < |v.bodies| && j != k
    requires r.peer.backend.Stream? ==> r.peer.backend != s && r.peer.backend.id != next && r.peer.backend.id in v.nets
    requires Rested(r, CleanSet(v), Ends(r, v, v.bodies[j]))
    ensures Rested(r, CleanSet(v'), Ends(r, v', v'.bodies[j]))
  {
    if r.peer.backend.Stream? {
      assert v'.nets[r.peer.backend.id] == v.nets[r.peer.backend.id];
    }
  }

  lemma OtherRested(b: BWorld, be: BEvent, j: nat)
    requires BInv(b) && BEnabled(b, be) && BRested(b) && !be.e.Accept? && j < |b.w.relays| && j != be.e.relay
    ensures var v' := NextWires(b, be);
            j < |v'.bodies| && Rested(b.w.relays[j], CleanSet(v'), Ends(b.w.relays[j], v', v'.bodies[j]))
  {
    var k, r := be.e.relay, b.w.relays[j];
    TouchesOnly(b, be);
    assert Linked(r, b.w.sh.streams);
    if j < k { Disjoint(b.w, j, k); } else { Disjoint(b.w, k, j); }
    OtherEnds(r, b.v, NextWires(b, be), j, k, b.w.relays[k].peer.backend, b.w.sh.streams.next);
  }

  lemma SelfRested(b: BWorld, be: BEvent)
    requires BInv(b) && BEnabled(b, be) && BRested(b) && !be.e.Accept? && Orderly(b, be)
    ensures var k := be.e.relay; var st := Act(b.w.relays[k], b.w.sh, be.e); var v' := NextWires(b, be);
            && k < |v'.bodies| && Rested(st.r, CleanSet(v'), Ends(st.r, v', v'.bodies[k]))
            && IdleRested(st.sh.pool.entries, CleanSet(v'))
  {
    var k := be.e.relay;
    var r, v' := b.w.relays[k], NextWires(b, be);
    assert LocalOk(r);
    RelayAlone(b.w, k);
    CleansStep(b, be);
    StepRested(r, b.w.sh, be.e, CleanSet(b.v), Ends(r, b.v, b.v.bodies[k]), CleanSet(v'), EndsNext(b, be));
    TouchesOnly(b, be);
    var r' := Act(r, b.w.sh, be.e).r;
    if Forwarding(r') && EndsNext(b, be) { EndsAgree(b, be, r'); }
  }

  lemma StepBRested(b: BWorld, be: BEvent)
    requires BInv(b) && BEnabled(b, be) && BRested(b) && Orderly(b, be)
    ensures BRested(BNext(b, be))
  {
    if be.e.Accept? {
      AcceptBRested(b, be);
    } else {
      var b' := BNext(b, be);
      SelfRested(b, be);
      TouchesOnly(b, be);
      forall j | 0 <= j < |b'.w.relays|
        ensures Rested(b'.w.relays[j], CleanSet(b'.v), Ends(b'.w.relays[j], b'.v, b'.v.bodies[j]))
      {
        if j != be.e.relay { OtherRested(b, be, j); }
      }
    }
  }

  lemma AcceptBRested(b: BWorld, be: BEvent)
    requires BInv(b) && BEnabled(b, be) && BRested(b) && be.e.Accept?
    ensures BRested(BNext(b, be))
  {
    var b' := BNext(b, be);
    assert CleanSet(b'.v) == CleanSet(b.v);
    forall j | 0 <= j < |b'.w.relays|
      ensures Rested(b'.w.relays[j], CleanSet(b'.v), Ends(b'.w.relays[j], b'.v, b'.v.bodies[j]))
    {
      if j < |b.w.relays| {
        assert b'.w.relays[j] == b.w.relays[j] && b'.v.bodies[j] == b.v.bodies[j];
      }
    }
  }
}
