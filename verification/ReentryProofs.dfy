/** Exactly when a flush calls every callback once. */
module ReentryProofs {
  import opened Common
  import opened WriteQueue
  import opened Reentry

  // ---- what a clean flush does ------------------------------------------------

  function Ids(calls: seq<Call>): (ids: seq<nat>)
    ensures |ids| == |calls| && forall i :: 0 <= i < |calls| ==> ids[i] == calls[i].id
  {
    seq(|calls|, i requires 0 <= i < |calls| => calls[i].id)
  }

  function Range(a: nat, b: nat): (r: seq<nat>)
    ensures |r| == (if a <= b then b - a else 0) && forall i :: 0 <= i < |r| ==> r[i] == a + i
  {
    if a < b then seq(b - a, i requires 0 <= i => a + i) else []
  }

  function Stamps(ids: seq<nat>, status: Status): (r: seq<Shot>)
    ensures |r| == |ids| && forall i :: 0 <= i < |ids| ==> r[i] == Shot(ids[i], status)
  {
    seq(|ids|, i requires 0 <= i < |ids| => Shot(ids[i], status))
  }

  /** Every queued callback has run once, in order and with `status`; then those of the writes made
      meanwhile; and no empty queue was popped. */
  predicate Clean(s: Live, r: Live, status: Status) {
    !r.broken && r.fired == s.fired + Stamps(Ids(s.calls) + Range(s.next, r.next), status)
  }

  predicate AllQuiet(calls: seq<Call>) {
    forall i :: 0 <= i < |calls| ==> calls[i].cb.Quiet?
  }

  // ---- quiet callbacks --------------------------------------------------------

  /** The front callback, which is quiet, has been called and its write removed. */
  function Passed(s: Live, status: Status): (r: Live)
    requires Matched(s) && s.calls != []
    ensures Matched(r)
  {
    Pop(Fire(s, s.calls[0], Head(s.q), status))
  }

  lemma QuietFront(s: Live, status: Status, lib: nat -> Answer)
    requires Matched(s) && !s.broken && s.calls != [] && s.calls[0].cb.Quiet?
    ensures FlushAll(s, status, lib) == FlushAll(Passed(s, status), status, lib)
    ensures Passed(s, status).q == Finish(s.q, status)
  {
  }

  lemma StampFront(fired: seq<Shot>, calls: seq<Call>, more: seq<nat>, status: Status)
    requires calls != []
    ensures fired + Stamps(Ids(calls) + more, status) ==
            fired + [Shot(calls[0].id, status)] + Stamps(Ids(calls[1..]) + more, status)
  {
  }

  /** With quiet callbacks the flush is the one of the write queue, and it is clean. */
  lemma {:induction false} QuietFlush(s: Live, status: Status, lib: nat -> Answer)
    requires Matched(s) && !s.broken && AllQuiet(s.calls)
    ensures var r := FlushAll(s, status, lib);
            Clean(s, r, status) && r.q == Flush(s.q, status) && r.next == s.next && r.tick == s.tick
    decreases |s.calls|
  {
    if s.calls != [] {
      QuietFront(s, status, lib);
      var p := Passed(s, status);
      assert forall i :: 0 <= i < |p.calls| ==> p.calls[i] == s.calls[i + 1];
      QuietFlush(p, status, lib);
      StampFront(s.fired, s.calls, [], status);
      assert Ids(s.calls) + [] == Ids(s.calls) && Ids(p.calls) + [] == Ids(p.calls);
    } else {
      assert s.fired + Stamps(Ids([]) + [], status) == s.fired;
    }
  }

  /** What the library takes is at most what it is offered. */
  function Clip(q: Queue, a: Answer): Answer {
    if a.Takes? && q.ops != [] then Takes(Min(a.n, Left(Head(q)))) else a
  }

  /** With quiet callbacks closing is the step of the write queue ... */
  lemma QuietClose(s: Live, lib: nat -> Answer)
    requires Matched(s) && !s.broken && AllQuiet(s.calls)
    ensures OnClose(s, lib).q == Step(s.q, Close)
  {
    QuietFlush(Closing(s), Eof, lib);
  }

  /** ... and so are resetting ... */
  lemma QuietReset(s: Live, lib: nat -> Answer)
    requires Matched(s) && !s.broken && AllQuiet(s.calls)
    ensures OnReset(s, lib).q == Step(s.q, PeerReset(1))
  {
    QuietFlush(s, Reset, lib);
  }

  lemma QuietOut(s: Live, c: Call, op: Op, status: Status, lib: nat -> Answer)
    requires Matched(s) && c.cb.Quiet?
    ensures CallOut(s, c, op, status, lib) == Fire(s, c, op, status)
  {
  }

  /** The pump of an open stream with something to offer. */
  predicate Offers(s: Live) {
    Matched(s) && !s.broken && s.q.open && !s.q.writing && s.calls != []
  }

  lemma RefusedPump(s: Live, lib: nat -> Answer)
    requires Offers(s) && lib(s.tick).Refused?
    ensures PumpOnce(s, lib) ==
            CallOut(Pop(Ask(s)), s.calls[0], Head(s.q), if lib(s.tick).reset then Reset else Eof, lib)
  {
  }

  lemma TakenPump(s: Live, lib: nat -> Answer)
    requires Offers(s) && lib(s.tick).Takes?
    ensures var n := Taken(s, lib(s.tick)); var s1 := Ask(s).(q := Take(s.q, n));
            PumpOnce(s, lib) ==
              if n > 0 && Left(Head(s1.q)) == 0 then CallOut(Pop(s1), s.calls[0], Head(s1.q), Success, lib)
              else s1.(q := s1.q.(writing := true, armed := true))
  {
  }

  lemma QuietOffer(s: Live, lib: nat -> Answer)
    requires Offers(s) && AllQuiet(s.calls)
    ensures PumpOnce(s, lib).q == Pump(s.q, Clip(s.q, lib(s.tick)))
  {
    var a, c := lib(s.tick), s.calls[0];
    if a.Refused? {
      RefusedPump(s, lib);
      QuietOut(Pop(Ask(s)), c, Head(s.q), if a.reset then Reset else Eof, lib);
    } else {
      TakenPump(s, lib);
      var s1 := Ask(s).(q := Take(s.q, Taken(s, a)));
      QuietOut(Pop(s1), c, Head(s1.q), Success, lib);
    }
  }

  /** ... and pumping. */
  lemma QuietPump(s: Live, lib: nat -> Answer)
    requires Matched(s) && !s.broken && AllQuiet(s.calls)
    ensures Fits(s.q, Clip(s.q, lib(s.tick))) && PumpOnce(s, lib).q == Pump(s.q, Clip(s.q, lib(s.tick)))
  {
    if !s.q.open { QuietFlush(s, Eof, lib); }
    else if Offers(s) { QuietOffer(s, lib); }
  }

  // ---- up to the first callback that writes -----------------------------------

  /** The first `i` callbacks are quiet and have been called. */
  function Skip(s: Live, i: nat, status: Status): (r: Live)
    requires Matched(s) && i <= |s.calls|
    ensures Matched(r) && r.calls == s.calls[i..] && r.q.ops == s.q.ops[i..] && r.next == s.next && r.tick == s.tick
    ensures r.broken == s.broken && r.q.open == s.q.open && r.q.writing == s.q.writing
    ensures r.fired == s.fired + Stamps(Ids(s.calls[..i]), status)
    decreases i
  {
    if i == 0 then
      assert s.fired + Stamps(Ids(s.calls[..0]), status) == s.fired;
      s
    else
      var p := Passed(s, status);
      assert p.calls[..i - 1] == s.calls[1..i];
      assert s.calls[..i] == [s.calls[0]] + s.calls[1..i];
      StampFront(s.fired, s.calls[..i], [], status);
      assert Ids(s.calls[..i]) + [] == Ids(s.calls[..i]) && Ids(s.calls[1..i]) + [] == Ids(s.calls[1..i]);
      Skip(p, i - 1, status)
  }

  lemma {:induction false} SkipFlush(s: Live, i: nat, status: Status, lib: nat -> Answer)
    requires Matched(s) && !s.broken && i <= |s.calls| && AllQuiet(s.calls[..i])
    ensures FlushAll(s, status, lib) == FlushAll(Skip(s, i, status), status, lib)
    decreases i
  {
    if i > 0 {
      assert s.calls[..i][0].cb.Quiet?;
      QuietFront(s, status, lib);
      var p := Passed(s, status);
      assert p.calls[..i - 1] == s.calls[..i][1..];
      SkipFlush(p, i - 1, status, lib);
    }
  }

  /** The first callback that writes. */
  function FirstWriter(calls: seq<Call>): (i: nat)
    requires !AllQuiet(calls)
    ensures i < |calls| && calls[i].cb.Writes? && AllQuiet(calls[..i])
  {
    if calls[0].cb.Writes? then 0
    else
      assert !AllQuiet(calls[1..]) by {
        var k :| 0 <= k < |calls| && !calls[k].cb.Quiet?;
        assert calls[1..][k - 1] == calls[k];
      }
      var i := 1 + FirstWriter(calls[1..]);
      assert forall j :: 1 <= j < i ==> calls[j] == calls[1..][..i - 1][j - 1];
      i
  }

  // ---- closing ----------------------------------------------------------------

  /** A flush begins by calling the front callback. */
  lemma FiresFront(s: Live, status: Status, lib: nat -> Answer)
    requires Matched(s) && !s.broken && s.calls != []
    ensures s.fired + [Shot(s.calls[0].id, status)] <= FlushAll(s, status, lib).fired
  {
    var s1 := CallFront(s, status, lib);
    assert s.fired + [Shot(s.calls[0].id, status)] <= s1.fired;
  }

  /** The front callback has been called and has queued its write. */
  function Rewritten(s: Live, status: Status): (r: Live)
    requires Matched(s) && s.calls != [] && s.calls[0].cb.Writes?
    ensures Matched(r) && r.fired == s.fired + [Shot(s.calls[0].id, status)] && r.broken == s.broken
    ensures |r.calls| == |s.calls| + 1 && r.calls[0] == Call(s.calls[0].id, s.calls[0].cb.later)
    ensures r.calls[1..] == s.calls[1..] + [Call(s.next, s.calls[0].cb.own)] && r.next == s.next + 1
    ensures r.q.open == s.q.open && r.q.writing == s.q.writing && r.tick == s.tick && Head(r.q) == Head(s.q)
    ensures Weight(r.calls) < Weight(s.calls)
  {
    var w := s.calls[0].cb;
    Enqueue(Advance(Fire(s, s.calls[0], Head(s.q), status), w.later), w.data, w.own)
  }

  lemma CallsAgain(s: Live, status: Status, lib: nat -> Answer)
    requires Matched(s) && s.calls != [] && s.calls[0].cb.Writes?
    ensures CallFront(s, status, lib) == PumpOnce(Rewritten(s, status), lib)
  {
  }

  lemma FlushUnfold(s: Live, status: Status, lib: nat -> Answer, s1: Live)
    requires Matched(s) && s.calls != [] && !s.broken && s1 == CallFront(s, status, lib)
    ensures FlushAll(s, status, lib) ==
            if s1.broken then s1 else if s1.calls == [] then s1.(broken := true) else FlushAll(Pop(s1), status, lib)
  {
  }

  lemma ClosedPump(s: Live, lib: nat -> Answer)
    requires Matched(s) && !s.broken && !s.q.open
    ensures PumpOnce(s, lib) == FlushAll(s, Eof, lib)
  {
  }

  /** A callback that writes to a closed stream is called again, inside its own call, and the flush
      around it then pops an empty queue. */
  lemma CloseFront(s: Live, lib: nat -> Answer)
    requires Matched(s) && !s.broken && !s.q.open && s.calls != [] && s.calls[0].cb.Writes?
    ensures var r := FlushAll(s, Eof, lib); var shot := Shot(s.calls[0].id, Eof);
            r.broken && s.fired + [shot, shot] <= r.fired
  {
    var shot, s2 := Shot(s.calls[0].id, Eof), Rewritten(s, Eof);
    CallsAgain(s, Eof, lib);
    ClosedPump(s2, lib);
    FiresFront(s2, Eof, lib);
    FlushUnfold(s, Eof, lib, FlushAll(s2, Eof, lib));
    assert s2.fired + [shot] == s.fired + [shot, shot];
  }

  /** The callback of the `i`-th queued write has been called twice in a row. */
  predicate Twice(s: Live, r: Live, i: nat, status: Status)
    requires i < |s.calls|
  {
    s.fired + Stamps(Ids(s.calls[..i]), status) + [Shot(s.calls[i].id, status), Shot(s.calls[i].id, status)] <= r.fired
  }

  /** Closing calls every callback exactly once if and only if none of them writes to the stream
      again; if one does, the first of them is called twice and an empty queue is popped. */
  lemma CloseOnceIff(s: Live, lib: nat -> Answer)
    requires Matched(s) && !s.broken
    ensures Clean(s, OnClose(s, lib), Eof) <==> AllQuiet(s.calls)
    ensures !AllQuiet(s.calls) ==> OnClose(s, lib).broken && Twice(s, OnClose(s, lib), FirstWriter(s.calls), Eof)
  {
    var s0 := Closing(s);
    if AllQuiet(s.calls) {
      QuietFlush(s0, Eof, lib);
    } else {
      var i := FirstWriter(s.calls);
      SkipFlush(s0, i, Eof, lib);
      CloseFront(Skip(s0, i, Eof), lib);
    }
  }

  // ---- resetting, while a write event is awaited ------------------------------

  lemma WritingPump(s: Live, lib: nat -> Answer)
    requires Matched(s) && s.q.open && s.q.writing
    ensures PumpOnce(s, lib) == s
  {
  }

  /** What a callback writes is flushed after what was queued before it. */
  lemma CleanAfter(s: Live, x: Live, r: Live)
    requires Matched(s) && s.calls != [] && s.calls[0].cb.Writes?
    requires Matched(x) && x.calls == Rewritten(s, Reset).calls && x.fired == Rewritten(s, Reset).fired
    requires x.next == s.next + 1 <= r.next && Clean(Pop(x), r, Reset)
    ensures Clean(s, r, Reset)
  {
    var own := Call(s.next, s.calls[0].cb.own);
    assert Pop(x).calls == s.calls[1..] + [own];
    assert Ids(s.calls[1..] + [own]) + Range(s.next + 1, r.next) == Ids(s.calls[1..]) + Range(s.next, r.next);
    StampFront(s.fired, s.calls, Range(s.next, r.next), Reset);
  }

  lemma CleanPassed(s: Live, r: Live)
    requires Matched(s) && s.calls != [] && Clean(Passed(s, Reset), r, Reset)
    ensures Clean(s, r, Reset)
  {
    StampFront(s.fired, s.calls, Range(s.next, r.next), Reset);
  }

  lemma {:induction false} ResetWriting(s: Live, lib: nat -> Answer)
    requires Matched(s) && !s.broken && s.q.open && s.q.writing
    ensures Clean(s, FlushAll(s, Reset, lib), Reset)
    decreases Weight(s.calls)
  {
    if s.calls == [] {
      assert s.fired + Stamps(Ids([]) + [], Reset) == s.fired;
    } else if s.calls[0].cb.Quiet? {
      QuietFront(s, Reset, lib);
      ResetWriting(Passed(s, Reset), lib);
      CleanPassed(s, FlushAll(s, Reset, lib));
    } else {
      var x := Rewritten(s, Reset);
      CallsAgain(s, Reset, lib);
      WritingPump(x, lib);
      FlushUnfold(s, Reset, lib, x);
      ResetWriting(Pop(x), lib);
      CleanAfter(s, x, FlushAll(Pop(x), Reset, lib));
    }
  }

  // ---- resetting, while none is awaited ---------------------------------------

  /** The library completes or refuses the write. */
  predicate Settles(op: Op, a: Answer) {
    a.Refused? || (Min(a.n, Left(op)) > 0 && Min(a.n, Left(op)) == Left(op))
  }

  /** The write stays in the queue, and a write event is now awaited. */
  function Stalled(s: Live, a: Answer): (r: Live)
    requires Matched(s) && s.calls != [] && a.Takes?
    ensures Matched(r) && r.calls == s.calls && r.fired == s.fired && r.next == s.next && r.broken == s.broken
    ensures r.q.open == s.q.open && r.q.writing
  {
    Ask(s).(q := Take(s.q, Taken(s, a)).(writing := true, armed := true))
  }

  lemma StallPump(s: Live, lib: nat -> Answer)
    requires Matched(s) && !s.broken && s.q.open && !s.q.writing && s.calls != [] && !Settles(Head(s.q), lib(s.tick))
    ensures PumpOnce(s, lib) == Stalled(s, lib(s.tick))
  {
    var n := Taken(s, lib(s.tick));
    assert Left(Head(Take(s.q, n))) == Left(Head(s.q)) - n;
  }

  lemma StallFront(s: Live, lib: nat -> Answer)
    requires Matched(s) && !s.broken && s.q.open && !s.q.writing && s.calls != [] && s.calls[0].cb.Writes?
    requires !Settles(Head(s.q), lib(s.tick))
    ensures Clean(s, FlushAll(s, Reset, lib), Reset)
  {
    var x := Stalled(Rewritten(s, Reset), lib(s.tick));
    CallsAgain(s, Reset, lib);
    StallPump(Rewritten(s, Reset), lib);
    FlushUnfold(s, Reset, lib, x);
    ResetWriting(Pop(x), lib);
    CleanAfter(s, x, FlushAll(Pop(x), Reset, lib));
  }

  lemma CallsOut(s: Live, c: Call, op: Op, status: Status, lib: nat -> Answer)
    requires Matched(s)
    ensures s.fired + [Shot(c.id, status)] <= CallOut(s, c, op, status, lib).fired
  {
  }

  lemma SettlePump(s: Live, lib: nat -> Answer)
    requires Matched(s) && !s.broken && s.q.open && !s.q.writing && s.calls != [] && Settles(Head(s.q), lib(s.tick))
    ensures |PumpOnce(s, lib).fired| > |s.fired| && PumpOnce(s, lib).fired[|s.fired|].id == s.calls[0].id
  {
    var a, c := lib(s.tick), s.calls[0];
    if a.Refused? {
      CallsOut(Pop(Ask(s)), c, Head(s.q), if a.reset then Reset else Eof, lib);
    } else {
      var s2 := Ask(s).(q := Take(s.q, Taken(s, a)));
      CallsOut(Pop(s2), c, Head(s2.q), Success, lib);
    }
  }

  /** The front callback is called with the reset and, inside that, for its write being settled. */
  lemma SettleFront(s: Live, lib: nat -> Answer)
    requires Matched(s) && !s.broken && s.q.open && !s.q.writing && s.calls != [] && s.calls[0].cb.Writes?
    requires Settles(Head(s.q), lib(s.tick))
    ensures var f := FlushAll(s, Reset, lib).fired;
            s.fired <= f && |f| > |s.fired| + 1 && f[|s.fired| + 1].id == s.calls[0].id
  {
    var x := Rewritten(s, Reset);
    CallsAgain(s, Reset, lib);
    SettlePump(x, lib);
    FlushUnfold(s, Reset, lib, PumpOnce(x, lib));
    assert PumpOnce(x, lib).fired <= FlushAll(s, Reset, lib).fired;
  }

  // ---- the exact condition ----------------------------------------------------

  predicate DistinctIds(s: Live) {
    && (forall i :: 0 <= i < |s.calls| ==> s.calls[i].id < s.next)
    && (forall i, j :: 0 <= i < j < |s.calls| ==> s.calls[i].id != s.calls[j].id)
  }

  lemma CleanAt(s: Live, r: Live, i: nat)
    requires i < |s.calls| && |r.fired| > |s.fired| + i
    ensures Clean(s, r, Reset) ==>
              r.fired[|s.fired| + i].id == s.calls[i].id
              && (|r.fired| > |s.fired| + |s.calls| ==> r.fired[|s.fired| + |s.calls|].id == s.next)
  {
  }

  /** A clean flush does not call the `i`-th callback twice in a row. */
  lemma NotTwice(s: Live, r: Live, i: nat)
    requires DistinctIds(s) && i < |s.calls| && |r.fired| > |s.fired| + i + 1
    requires r.fired[|s.fired| + i + 1].id == s.calls[i].id
    ensures !Clean(s, r, Reset)
  {
    CleanAt(s, r, if i + 1 < |s.calls| then i + 1 else i);
  }

  /** The library, asked about the first write whose callback writes again, would settle it. */
  predicate Resettles(s: Live, lib: nat -> Answer)
    requires Matched(s) && !AllQuiet(s.calls)
  {
    Settles(s.q.ops[FirstWriter(s.calls)], lib(s.tick))
  }

  lemma StampsSplit(fired: seq<Shot>, a: seq<nat>, b: seq<nat>, status: Status)
    ensures fired + Stamps(a, status) + Stamps(b, status) == fired + Stamps(a + b, status)
  {
  }

  lemma IdsSplit(calls: seq<Call>, i: nat, more: seq<nat>)
    requires i <= |calls|
    ensures Ids(calls[..i]) + (Ids(calls[i..]) + more) == Ids(calls) + more
  {
  }

  lemma CleanSkip(s: Live, r: Live, i: nat)
    requires Matched(s) && i <= |s.calls| && Clean(Skip(s, i, Reset), r, Reset)
    ensures Clean(s, r, Reset)
  {
    var more := Range(s.next, r.next);
    IdsSplit(s.calls, i, more);
    StampsSplit(s.fired, Ids(s.calls[..i]), Ids(s.calls[i..]) + more, Reset);
  }

  lemma SettledNotClean(s: Live, i: nat, t: Live, lib: nat -> Answer)
    requires DistinctIds(s) && i < |s.calls| && |t.fired| == |s.fired| + i
    requires Matched(t) && !t.broken && t.q.open && !t.q.writing && t.calls != [] && t.calls[0] == s.calls[i]
    requires t.calls[0].cb.Writes? && Settles(Head(t.q), lib(t.tick))
    ensures !Clean(s, FlushAll(t, Reset, lib), Reset)
  {
    SettleFront(t, lib);
    NotTwice(s, FlushAll(t, Reset, lib), i);
  }

  lemma ResetSettled(s: Live, lib: nat -> Answer)
    requires Matched(s) && !s.broken && s.q.open && !s.q.writing && DistinctIds(s) && !AllQuiet(s.calls)
    requires Resettles(s, lib)
    ensures !Clean(s, FlushAll(s, Reset, lib), Reset)
  {
    var i := FirstWriter(s.calls);
    SettledNotClean(s, i, Skip(s, i, Reset), lib);
    SkipFlush(s, i, Reset, lib);
  }

  lemma ResetStalled(s: Live, lib: nat -> Answer)
    requires Matched(s) && !s.broken && s.q.open && !s.q.writing && !AllQuiet(s.calls) && !Resettles(s, lib)
    ensures Clean(s, FlushAll(s, Reset, lib), Reset)
  {
    var i := FirstWriter(s.calls);
    SkipFlush(s, i, Reset, lib);
    StallFront(Skip(s, i, Reset), lib);
    CleanSkip(s, FlushAll(s, Reset, lib), i);
  }

  /** A reset calls every callback exactly once if and only if none of them writes to the stream again,
      or a write event was awaited, or the library neither completes nor refuses the first write
      whose callback does. */
  lemma ResetOnceIff(s: Live, lib: nat -> Answer)
    requires Matched(s) && !s.broken && s.q.open && DistinctIds(s)
    ensures Clean(s, OnReset(s, lib), Reset) <==> (AllQuiet(s.calls) || s.q.writing || !Resettles(s, lib))
  {
    if s.q.writing {
      ResetWriting(s, lib);
    } else if AllQuiet(s.calls) {
      QuietFlush(s, Reset, lib);
    } else if Resettles(s, lib) {
      ResetSettled(s, lib);
    } else {
      ResetStalled(s, lib);
    }
  }

  // ---- runs that fail ---------------------------------------------------------

  const START := Live(EMPTY, [], [], 0, 0, false)

  /** `async_write_some`. */
  function Submit(s: Live, data: Bytes, cb: Callback, lib: nat -> Answer): (r: Live)
    requires Matched(s)
    ensures Matched(r)
  {
    PumpOnce(Enqueue(s, data, cb), lib)
  }

  /** `on_writeable`. */
  function Ready(s: Live, lib: nat -> Answer): (r: Live)
    requires Matched(s)
    ensures Matched(r)
  {
    PumpOnce(s.(q := s.q.(writing := false)), lib)
  }

  /** A callback that writes once, when it is first called. */
  const ONCE := Writes([9], Quiet, Quiet)

  /** The library takes nothing at first, then refuses, then takes what it is offered. */
  function Answers(t: nat): Answer {
    if t == 0 then Takes(0) else if t == 1 then Refused(false) else Takes(1)
  }

  /** A queue whose head waits for a write event. */
  function Waiting(n: nat): Queue {
    EMPTY.(ops := seq(n, _ => Op([7], 0)), writing := true, armed := true, offered := seq(n, _ => [7]))
  }

  const LONE := Live(Waiting(1), [Call(0, ONCE)], [], 1, 1, false)

  /** The first write of a stream is not taken at once. */
  lemma FirstWaits(cb: Callback)
    ensures Submit(START, [7], cb, Answers) == Live(Waiting(1), [Call(0, cb)], [], 1, 1, false)
  {
    var s := Enqueue(START, [7], cb);
    assert s.calls == [Call(0, cb)] && s.q.ops == [Op([7], 0)] && s.q.offered == [[7]];
    TakenPump(s, Answers);
    assert Take(s.q, 0).ops == s.q.ops && Take(s.q, 0).accepted == [];
  }

  /** One write whose callback writes again, and the close: the callback is called twice and an empty
      queue is popped. */
  lemma CloseBreaks()
    ensures var r := OnClose(Submit(START, [7], ONCE, Answers), Answers);
            r.broken && [Shot(0, Eof), Shot(0, Eof)] <= r.fired
  {
    FirstWaits(ONCE);
    CloseOnceIff(LONE, Answers);
    assert !LONE.calls[0].cb.Quiet? && Ids(LONE.calls[..0]) == [];
    assert LONE.fired + Stamps([], Eof) + [Shot(0, Eof), Shot(0, Eof)] == [Shot(0, Eof), Shot(0, Eof)];
  }

  /** Three writes, of which the callback of the second writes again; the first is refused. */
  function Refusal(): (s: Live)
    ensures Matched(s)
  {
    Ready(Three(), Answers)
  }

  function Three(): (s: Live)
    ensures Matched(s)
  {
    Submit(Submit(Submit(START, [7], Quiet, Answers), [7], ONCE, Answers), [7], Quiet, Answers)
  }

  lemma SubmitWaits(s: Live, cb: Callback)
    requires Matched(s) && !s.broken && s.q.open && s.q.writing
    ensures Submit(s, [7], cb, Answers) == Enqueue(s, [7], cb)
  {
  }

  /** A refused write is called back and leaves the queue to the next. */
  lemma ReadyRefused(s: Live)
    requires Matched(s) && !s.broken && s.q.open && s.tick == 1 && s.calls != [] && s.calls[0].cb.Quiet?
    ensures var r := Ready(s, Answers);
            && r.calls == s.calls[1..] && r.q.ops == s.q.ops[1..] && r.fired == s.fired + [Shot(s.calls[0].id, Eof)]
            && !r.broken && r.q.open && !r.q.writing && r.next == s.next && r.tick == 2
  {
    var s1 := s.(q := s.q.(writing := false));
    RefusedPump(s1, Answers);
    QuietOut(Pop(Ask(s1)), s.calls[0], Head(s1.q), Eof, Answers);
  }

  /** The queue that is left, with no write event awaited. */
  predicate Paired(s: Live) {
    && Matched(s) && !s.broken && s.q.open && !s.q.writing && s.next == 3 && s.tick == 2
    && s.calls == [Call(1, ONCE), Call(2, Quiet)] && s.q.ops == [Op([7], 0), Op([7], 0)]
    && s.fired == [Shot(0, Eof)]
  }

  lemma ThreeWait()
    ensures var s := Three();
            && !s.broken && s.q.open && s.next == 3 && s.tick == 1 && s.fired == []
            && s.calls == [Call(0, Quiet), Call(1, ONCE), Call(2, Quiet)]
            && s.q.ops == [Op([7], 0), Op([7], 0), Op([7], 0)]
  {
    FirstWaits(Quiet);
    var s1 := Live(Waiting(1), [Call(0, Quiet)], [], 1, 1, false);
    SubmitWaits(s1, ONCE);
    SubmitWaits(Enqueue(s1, [7], ONCE), Quiet);
  }

  lemma RefusalPairs()
    ensures Paired(Refusal())
  {
    ThreeWait();
    ReadyRefused(Three());
  }

  lemma PairPump(s: Live)
    requires Paired(s)
    ensures var y := CallFront(s, Reset, Answers);
            && !y.broken && y.calls == [Call(2, Quiet), Call(3, Quiet)] && y.next == 4
            && y.fired == [Shot(0, Eof), Shot(1, Reset), Shot(1, Success)]
  {
    var x := Rewritten(s, Reset);
    CallsAgain(s, Reset, Answers);
    var s2 := Ask(x).(q := Take(x.q, 1));
    assert x.calls == [Call(1, Quiet), Call(2, Quiet), Call(3, Quiet)];
    TakenPump(x, Answers);
    QuietOut(Pop(s2), x.calls[0], Head(s2.q), Success, Answers);
  }

  lemma PairLoses(s: Live)
    requires Paired(s)
    ensures OnReset(s, Answers).fired == [Shot(0, Eof), Shot(1, Reset), Shot(1, Success), Shot(3, Reset)]
  {
    PairPump(s);
    var y := CallFront(s, Reset, Answers);
    FlushUnfold(s, Reset, Answers, y);
    var z := Pop(y);
    assert z.calls == [Call(3, Quiet)];
    QuietFlush(z, Reset, Answers);
    assert Ids(z.calls) + Range(4, 4) == [3];
  }

  /** A reset then calls the second callback twice and the third one never. */
  lemma ResetLoses()
    ensures OnReset(Refusal(), Answers).fired == [Shot(0, Eof), Shot(1, Reset), Shot(1, Success), Shot(3, Reset)]
  {
    RefusalPairs();
    PairLoses(Refusal());
  }
}
