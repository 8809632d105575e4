/**
  Callbacks that write to their stream again while its queue is flushed.  A flush calls the front
  callback with the write still in the queue and removes the front afterwards; a callback that writes
  runs the pump inside the flush.
 */
module Reentry {
  import opened Common
  import opened WriteQueue

  /** What a callback does when it is called: nothing, or one more write, with a callback of its own,
      after which it does something else the next time. */
  datatype Callback = Quiet | Writes(data: Bytes, own: Callback, later: Callback)

  datatype Call = Call(id: nat, cb: Callback)

  /** A callback has run. */
  datatype Shot = Shot(id: nat, status: Status)

  /** The queue, the callbacks of its writes, and what has become of callbacks. */
  datatype Live = Live(
    q: Queue,
    calls: seq<Call>,
    fired: seq<Shot>,
    next: nat,           // identifies the next write
    tick: nat,           // counts the questions to the library
    broken: bool)        // an empty queue was popped

  predicate Matched(s: Live) {
    |s.calls| == |s.q.ops| && Sane(s.q)
  }

  // ---- callbacks come to an end -----------------------------------------------

  function Size(cb: Callback): nat {
    match cb
    case Quiet => 0
    case Writes(_, own, later) => 2 + Size(own) + Size(later)
  }

  function Weight(calls: seq<Call>): nat {
    if calls == [] then 0 else 1 + Size(calls[0].cb) + Weight(calls[1..])
  }

  lemma {:induction false} WeightAppend(calls: seq<Call>, c: Call)
    ensures Weight(calls + [c]) == Weight(calls) + 1 + Size(c.cb)
  {
    if calls == [] {
      assert (calls + [c])[1..] == [];
    } else {
      assert (calls + [c])[1..] == calls[1..] + [c];
      WeightAppend(calls[1..], c);
    }
  }

  // ---- steps ------------------------------------------------------------------

  function Pop(s: Live): (r: Live)
    requires Matched(s) && s.calls != []
    ensures Matched(r) && Weight(r.calls) < Weight(s.calls)
  {
    s.(q := s.q.(ops := s.q.ops[1..]), calls := s.calls[1..])
  }

  /** Callback `c` of write `op` is called. */
  function Fire(s: Live, c: Call, op: Op, status: Status): (r: Live)
    requires Matched(s)
    ensures Matched(r) && r.calls == s.calls && s.fired <= r.fired
  {
    s.(fired := s.fired + [Shot(c.id, status)], q := s.q.(past := s.q.past + [Finished(op.data, op.offset, status)]))
  }

  function Enqueue(s: Live, data: Bytes, cb: Callback): (r: Live)
    requires Matched(s)
    ensures Matched(r) && Weight(r.calls) == Weight(s.calls) + 1 + Size(cb)
  {
    WeightAppend(s.calls, Call(s.next, cb));
    s.(q := Push(s.q, data), calls := s.calls + [Call(s.next, cb)], next := s.next + 1)
  }

  /** The front callback has written once and will go on as `later`. */
  function Advance(s: Live, later: Callback): (r: Live)
    requires Matched(s) && s.calls != []
    ensures Matched(r) && Weight(r.calls) == Weight(s.calls) - Size(s.calls[0].cb) + Size(later)
  {
    assert s.calls[0 := Call(s.calls[0].id, later)][1..] == s.calls[1..];
    s.(calls := s.calls[0 := Call(s.calls[0].id, later)])
  }

  /** Later states have called more and stay broken. */
  predicate Onward(s: Live, r: Live) {
    && Matched(r) && s.fired <= r.fired && s.next <= r.next && r.q.open == s.q.open
    && (s.broken ==> r.broken) && (s.q.writing ==> r.q.writing)
  }

  /** The front callback is called, with its write in the queue. */
  function CallFront(s: Live, status: Status, lib: nat -> Answer): (r: Live)
    requires Matched(s) && s.calls != []
    ensures Onward(s, r) && Weight(r.calls) <= Weight(s.calls)
    decreases Weight(s.calls), 1
  {
    var s1 := Fire(s, s.calls[0], Head(s.q), status);
    match s.calls[0].cb
    case Quiet => s1
    case Writes(data, own, later) => PumpOnce(Enqueue(Advance(s1, later), data, own), lib)
  }

  /** A callback is called whose write has left the queue. */
  function CallOut(s: Live, c: Call, op: Op, status: Status, lib: nat -> Answer): (r: Live)
    requires Matched(s)
    ensures Onward(s, r) && Weight(r.calls) <= Weight(s.calls) + 1 + Size(c.cb)
    decreases Weight(s.calls) + 1 + Size(c.cb), 0
  {
    var s1 := Fire(s, c, op, status);
    match c.cb
    case Quiet => s1
    case Writes(data, own, _) => PumpOnce(Enqueue(s1, data, own), lib)
  }

  /** The loop that empties the queue. */
  function FlushAll(s: Live, status: Status, lib: nat -> Answer): (r: Live)
    requires Matched(s)
    ensures Onward(s, r) && Weight(r.calls) <= Weight(s.calls) && (r.broken || r.calls == [])
    decreases Weight(s.calls), 2
  {
    if s.broken || s.calls == [] then s
    else
      var s1 := CallFront(s, status, lib);
      if s1.broken then s1
      else if s1.calls == [] then s1.(broken := true)
      else FlushAll(Pop(s1), status, lib)
  }

  /** What the library takes, and the write it then completes or leaves. */
  function Taken(s: Live, a: Answer): nat
    requires Matched(s) && s.calls != []
  {
    if a.Takes? then Min(a.n, Left(Head(s.q))) else 0
  }

  function Ask(s: Live): Live {
    s.(tick := s.tick + 1)
  }

  function PumpOnce(s: Live, lib: nat -> Answer): (r: Live)
    requires Matched(s)
    ensures Onward(s, r) && Weight(r.calls) <= Weight(s.calls)
    decreases Weight(s.calls), 3
  {
    if s.broken then s
    else if !s.q.open then FlushAll(s, Eof, lib)
    else if s.q.writing || s.calls == [] then s
    else
      var a, c, s1 := lib(s.tick), s.calls[0], Ask(s);
      match a
      case Refused(reset) => CallOut(Pop(s1), c, Head(s.q), if reset then Reset else Eof, lib)
      case Takes(_) =>
        var n := Taken(s, a);
        var s2 := s1.(q := Take(s.q, n));
        if n > 0 && Left(Head(s2.q)) == 0 then CallOut(Pop(s2), c, Head(s2.q), Success, lib)
        else s2.(q := s2.q.(writing := true, armed := true))
  }

  // ---- the two flushes --------------------------------------------------------

  function Closing(s: Live): Live {
    s.(q := s.q.(open := false))
  }

  /** `on_close`. */
  function OnClose(s: Live, lib: nat -> Answer): Live
    requires Matched(s)
  {
    var r := FlushAll(Closing(s), Eof, lib);
    r.(q := r.q.(writing := false))
  }

  /** `on_reset` for the write side. */
  function OnReset(s: Live, lib: nat -> Answer): Live
    requires Matched(s)
  {
    var r := FlushAll(s, Reset, lib);
    r.(q := r.q.(writing := false))
  }
}
