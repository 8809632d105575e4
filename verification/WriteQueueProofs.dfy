/** The write queue keeps order, loses nothing and calls every callback once. */
module WriteQueueProofs {
  import opened Common
  import opened WriteQueue

  // ---- the invariant is kept --------------------------------------------------

  lemma DatasAppend(ops: seq<Op>, op: Op)
    ensures Datas(ops + [op]) == Datas(ops) + [op.data]
  {
  }

  lemma PastAppend(past: seq<Finished>, f: Finished)
    ensures PastDatas(past + [f]) == PastDatas(past) + [f.data]
    ensures f.taken <= |f.data| ==> PastTaken(past + [f]) == PastTaken(past) + f.data[..f.taken]
  {
    assert (past + [f])[..|past|] == past;
  }

  predicate Core(q: Queue) {
    Sane(q) && Ordered(q) && Honest(q)
  }

  lemma FinishOrdered(q: Queue, status: Status)
    requires q.ops != [] && Sane(q) && Ordered(q)
    ensures Ordered(Finish(q, status))
  {
    var op, q' := Head(q), Finish(q, status);
    PastAppend(q.past, Finished(op.data, op.offset, status));
    assert Datas(q.ops) == [op.data] + Datas(q'.ops);
    assert PastDatas(q.past) + ([op.data] + Datas(q'.ops)) == PastDatas(q.past) + [op.data] + Datas(q'.ops);
    assert HeadTaken(q'.ops) == [];
  }

  lemma FinishCore(q: Queue, status: Status)
    requires q.ops != [] && Core(q) && (status == Success ==> Left(Head(q)) == 0 && Head(q).data != [])
    ensures Core(Finish(q, status))
  {
    FinishOrdered(q, status);
  }

  lemma {:induction false} FlushCore(q: Queue, status: Status)
    requires Core(q) && status != Success
    ensures Core(Flush(q, status)) && Flush(q, status).offered == q.offered && Flush(q, status).accepted == q.accepted
    decreases |q.ops|
  {
    if q.ops != [] {
      FinishCore(q, status);
      FlushCore(Finish(q, status), status);
    }
  }

  /** The callbacks a flush makes: every queued write, in order, with the given status. */
  function Failures(ops: seq<Op>, status: Status): (r: seq<Finished>)
    ensures |r| == |ops| && forall i :: 0 <= i < |ops| ==> r[i] == Finished(ops[i].data, ops[i].offset, status)
  {
    seq(|ops|, i requires 0 <= i < |ops| => Finished(ops[i].data, ops[i].offset, status))
  }

  lemma FailuresUnfold(past: seq<Finished>, ops: seq<Op>, status: Status)
    requires ops != []
    ensures past + Failures(ops, status) ==
            past + [Finished(ops[0].data, ops[0].offset, status)] + Failures(ops[1..], status)
  {
  }

  lemma {:induction false} FlushAppends(q: Queue, status: Status)
    ensures Flush(q, status).past == q.past + Failures(q.ops, status)
    decreases |q.ops|
  {
    if q.ops != [] {
      FlushAppends(Finish(q, status), status);
      FailuresUnfold(q.past, q.ops, status);
    } else {
      assert q.past + Failures(q.ops, status) == q.past;
    }
  }

  /** A close fails every queued write with end of file, a reset of the write side with a reset, in
      order and without offering the library another byte. */
  lemma ErrorsInOrder(q: Queue, e: Event)
    requires Inv(q) && (e.Close? || (e.PeerReset? && (e.how == 1 || e.how == 2)))
    ensures var q' := Step(q, e);
            && q'.past == q.past + Failures(q.ops, if e.Close? then Eof else Reset)
            && q'.accepted == q.accepted && q'.ops == []
  {
    var q0 := if e.Close? then q.(open := false) else q;
    FlushAppends(q0, if e.Close? then Eof else Reset);
    FlushCore(q0, if e.Close? then Eof else Reset);
  }

  lemma TakeSplit(p: Bytes, data: Bytes, k: nat, n: nat)
    requires k + n <= |data|
    ensures p + data[..k] + data[k..k + n] == p + data[..k + n]
  {
    assert data[..k + n] == data[..k] + data[k..k + n];
  }

  lemma TakeCore(q: Queue, n: nat)
    requires q.ops != [] && Core(q) && n <= Left(Head(q))
    ensures Core(Take(q, n))
  {
    var op, q' := Head(q), Take(q, n);
    assert Datas(q'.ops) == Datas(q.ops);
    TakeSplit(PastTaken(q.past), op.data, op.offset, n);
    assert HeadTaken(q'.ops) == op.data[..op.offset + n];
  }

  lemma PushCore(q: Queue, data: Bytes)
    requires Core(q)
    ensures Core(Push(q, data))
  {
    DatasAppend(q.ops, Op(data, 0));
    assert PastDatas(q.past) + (Datas(q.ops) + [data]) == PastDatas(q.past) + Datas(q.ops) + [data];
    assert HeadTaken(Push(q, data).ops) == HeadTaken(q.ops);
  }

  lemma PumpCore(q: Queue, a: Answer)
    requires Core(q) && Fits(q, a)
    ensures Core(Pump(q, a)) && Pump(q, a).offered == q.offered
  {
    if !q.open {
      FlushCore(q, Eof);
    } else if !q.writing && q.ops != [] {
      match a {
        case Refused(reset) => FinishCore(q, if reset then Reset else Eof);
        case Takes(n) =>
          TakeCore(q, n);
          var q1 := Take(q, n);
          if n > 0 && Left(Head(q1)) == 0 { FinishCore(q1, Success); }
      }
    }
  }

  /** After a pump, whatever is still queued waits for an armed write event. */
  lemma PumpLive(q: Queue, a: Answer)
    requires Sane(q) && Fits(q, a)
    requires (q.writing ==> q.armed) && (!q.armed ==> |q.ops| <= 1)
    ensures Live(Pump(q, a))
  {
  }

  lemma StepInv(q: Queue, e: Event)
    requires Inv(q) && Enabled(q, e)
    ensures Inv(Step(q, e))
    ensures Step(q, e).offered == if e.Write? then q.offered + [e.data] else q.offered
  {
    match e {
      case Write(data, a) =>
        PushCore(q, data);
        PumpCore(Push(q, data), a);
        PumpLive(Push(q, data), a);
      case Writeable(a) =>
        PumpCore(q.(writing := false), a);
        PumpLive(q.(writing := false), a);
      case Close => FlushCore(q.(open := false), Eof);
      case PeerReset(how) => FlushCore(q, Reset);
    }
  }

  // ---- whole runs -------------------------------------------------------------

  predicate Run(events: seq<Event>, states: seq<Queue>) {
    && |states| == |events| + 1 && states[0] == EMPTY
    && forall i :: 0 <= i < |events| ==>
         Sane(states[i]) && Enabled(states[i], events[i]) && states[i + 1] == Step(states[i], events[i])
  }

  /** The buffers a run has offered before event `i`. */
  function Buffers(events: seq<Event>, i: nat): seq<Bytes>
    requires i <= |events|
  {
    if i == 0 then []
    else Buffers(events, i - 1) + if events[i - 1].Write? then [events[i - 1].data] else []
  }

  lemma {:induction false} RunInv(events: seq<Event>, states: seq<Queue>, i: nat)
    requires Run(events, states) && i < |states|
    ensures Inv(states[i]) && states[i].offered == Buffers(events, i)
  {
    if i > 0 {
      RunInv(events, states, i - 1);
      StepInv(states[i - 1], events[i - 1]);
    }
  }

  function Concat(bs: seq<Bytes>): Bytes {
    if bs == [] then [] else Concat(bs[..|bs| - 1]) + bs[|bs| - 1]
  }

  /** The unaccepted bytes of the queue. */
  function Tails(ops: seq<Op>): Bytes
    requires forall i :: 0 <= i < |ops| ==> ops[i].offset <= |ops[i].data|
  {
    if ops == [] then [] else Tails(ops[..|ops| - 1]) + ops[|ops| - 1].data[ops[|ops| - 1].offset..]
  }

  lemma {:induction false} ConcatAppend(a: seq<Bytes>, b: seq<Bytes>)
    ensures Concat(a + b) == Concat(a) + Concat(b)
    decreases |b|
  {
    if b == [] {
      assert a + b == a;
    } else {
      assert (a + b)[..|a + b| - 1] == a + b[..|b| - 1];
      ConcatAppend(a, b[..|b| - 1]);
    }
  }

  lemma {:induction false} PastWhole(past: seq<Finished>)
    requires forall i :: 0 <= i < |past| ==> past[i].taken == |past[i].data|
    ensures PastTaken(past) == Concat(PastDatas(past))
  {
    if past != [] {
      var p := past[..|past| - 1];
      PastWhole(p);
      assert PastDatas(past)[..|past| - 1] == PastDatas(p);
    }
  }

  lemma {:induction false} QueueWhole(ops: seq<Op>)
    requires forall i :: 0 <= i < |ops| ==> ops[i].offset <= |ops[i].data| && (i > 0 ==> ops[i].offset == 0)
    ensures HeadTaken(ops) + Tails(ops) == Concat(Datas(ops))
  {
    if ops != [] {
      var o, last := ops[..|ops| - 1], ops[|ops| - 1];
      QueueWhole(o);
      assert Datas(ops)[..|ops| - 1] == Datas(o);
      if o == [] {
        assert Tails(ops) == last.data[last.offset..];
        assert last.data == last.data[..last.offset] + last.data[last.offset..];
      } else {
        assert HeadTaken(ops) == HeadTaken(o) && last.data[0..] == last.data;
        Regroup(HeadTaken(o), Tails(o), last.data);
      }
    }
  }

  lemma Regroup(p: Bytes, h: Bytes, t: Bytes)
    ensures p + h + t == p + (h + t)
  {
  }

  lemma WholeQueue(q: Queue)
    requires Core(q) && forall k :: 0 <= k < |q.past| ==> q.past[k].status == Success
    ensures q.accepted + Tails(q.ops) == Concat(q.offered)
  {
    PastWhole(q.past);
    QueueWhole(q.ops);
    ConcatAppend(PastDatas(q.past), Datas(q.ops));
    Regroup(PastTaken(q.past), HeadTaken(q.ops), Tails(q.ops));
  }

  /** While no write has failed, the bytes the library has accepted, followed by the queued
      tails, are exactly the buffers written so far, in order. */
  lemma NothingLostOrReordered(events: seq<Event>, states: seq<Queue>, i: nat)
    requires Run(events, states) && i < |states|
    requires forall k :: 0 <= k < |states[i].past| ==> states[i].past[k].status == Success
    ensures Sane(states[i]) && states[i].accepted + Tails(states[i].ops) == Concat(Buffers(events, i))
  {
    RunInv(events, states, i);
    WholeQueue(states[i]);
  }

  /** Failures only cut buffers short: the accepted bytes are a prefix of each buffer in turn. */
  lemma AcceptedInOrder(events: seq<Event>, states: seq<Queue>, i: nat)
    requires Run(events, states) && i < |states|
    ensures var q := states[i];
            && q.accepted == PastTaken(q.past) + HeadTaken(q.ops)
            && PastDatas(q.past) + Datas(q.ops) == Buffers(events, i)
            && forall k :: 0 <= k < |q.past| ==>
                 q.past[k].taken <= |q.past[k].data|
                 && (q.past[k].status == Success ==> q.past[k].taken == |q.past[k].data|)
  {
    RunInv(events, states, i);
  }

  /** The k-th callback to run is the k-th write's: at most once each, in order; and once the
      stream has closed, exactly once each. */
  lemma CallbacksOnceInOrder(events: seq<Event>, states: seq<Queue>, i: nat)
    requires Run(events, states) && i < |states|
    ensures PastDatas(states[i].past) <= Buffers(events, i)
    ensures !states[i].open ==> PastDatas(states[i].past) == Buffers(events, i)
  {
    RunInv(events, states, i);
    var q := states[i];
    if !q.open {
      assert Datas(q.ops) == [];
    }
  }

  /** A nonempty queue on an open stream always has the write event armed. */
  lemma QueuedIsArmed(events: seq<Event>, states: seq<Queue>, i: nat)
    requires Run(events, states) && i < |states| && states[i].ops != []
    ensures states[i].open && states[i].armed
  {
    RunInv(events, states, i);
  }

  /** An empty buffer is never completed with success, in any run. */
  lemma EmptyNeverSucceeds(events: seq<Event>, states: seq<Queue>, i: nat, k: nat)
    requires Run(events, states) && i < |states| && k < |states[i].past| && states[i].past[k].data == []
    ensures states[i].past[k].status != Success
  {
    RunInv(events, states, i);
  }

  const STALLED := Queue([Op([], 0), Op([1], 0)], true, true, true, [], [], [[], [1]])

  /** An empty write, a write behind it, and `n` write events. */
  function StalledEvents(n: nat): seq<Event> {
    if n == 0 then [Write([], Takes(0)), Write([1], Takes(0))] else StalledEvents(n - 1) + [Writeable(Takes(0))]
  }

  function StalledStates(n: nat): seq<Queue> {
    if n == 0 then [EMPTY, STALLED.(ops := [Op([], 0)], offered := [[]]), STALLED]
    else StalledStates(n - 1) + [STALLED]
  }

  lemma StallStep()
    ensures Enabled(STALLED, Writeable(Takes(0))) && Step(STALLED, Writeable(Takes(0))) == STALLED
  {
    var q := STALLED.(writing := false);
    assert q.ops[0 := Op([], 0)] == q.ops;
    assert q.accepted + [] == q.accepted;
  }

  lemma StallBegins()
    ensures Run(StalledEvents(0), StalledStates(0))
  {
    var q1 := STALLED.(ops := [Op([], 0)], offered := [[]]);
    assert [] + [Op([], 0)] == [Op([], 0)];
    assert Step(EMPTY, Write([], Takes(0))) == q1;
    assert Step(q1, Write([1], Takes(0))) == STALLED;
  }

  /** However many write events come, the empty write and the one behind it stay where they are. */
  lemma {:induction false} EmptyHeadForEver(n: nat)
    ensures Run(StalledEvents(n), StalledStates(n)) && StalledStates(n)[|StalledEvents(n)|] == STALLED
  {
    if n == 0 {
      StallBegins();
    } else {
      EmptyHeadForEver(n - 1);
      StallStep();
      RunMore(StalledEvents(n - 1), StalledStates(n - 1), Writeable(Takes(0)), STALLED);
    }
  }

  lemma RunMore(events: seq<Event>, states: seq<Queue>, e: Event, q: Queue)
    requires Run(events, states) && Sane(states[|events|])
    requires Enabled(states[|events|], e) && Step(states[|events|], e) == q
    ensures Run(events + [e], states + [q]) && (states + [q])[|events| + 1] == q
  {
    var events', states' := events + [e], states + [q];
    assert forall i :: 0 <= i < |events| ==> events'[i] == events[i];
    assert forall i :: 0 <= i < |states| ==> states'[i] == states[i];
  }

  // ---- a write event ----------------------------------------------------------

  /** A write event with something queued offers the head to the library once.  If it is refused the write ends
      with the error of the refusal; if its last byte is taken the write ends with success; otherwise
      what was taken is behind it and the next event is awaited. */
  lemma WriteEvent(q: Queue, a: Answer)
    requires Inv(q) && q.open && q.ops != [] && Fits(q, a)
    ensures var q', op := Step(q, Writeable(a)), q.ops[0];
            match a
            case Refused(reset) =>
              && q'.ops == q.ops[1..] && q'.accepted == q.accepted && !q'.writing
              && q'.past == q.past + [Finished(op.data, op.offset, if reset then Reset else Eof)]
            case Takes(n) =>
              && q'.accepted == q.accepted + op.data[op.offset..op.offset + n]
              && if n > 0 && op.offset + n == |op.data|
                 then q'.ops == q.ops[1..] && !q'.writing && q'.past == q.past + [Finished(op.data, |op.data|, Success)]
                 else q'.ops == [Op(op.data, op.offset + n)] + q.ops[1..] && q'.writing && q'.past == q.past
  {
    assert q.ops[0 := Op(q.ops[0].data, 0)][1..] == q.ops[1..];
    var n := if a.Takes? then a.n else 0;
    var ops := q.ops[0 := Op(q.ops[0].data, q.ops[0].offset + n)];
    assert ops == [Op(q.ops[0].data, q.ops[0].offset + n)] + q.ops[1..] && ops[1..] == q.ops[1..];
  }

  /** A reset of the read side alone leaves the queue as it is. */
  lemma ReadReset(q: Queue, how: nat)
    requires Inv(q) && how != 1 && how != 2
    ensures Step(q, PeerReset(how)) == q
  {
  }
}
