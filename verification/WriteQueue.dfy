/**
  The write queue of a QUIC stream.  The library accepts as much of a buffer as it likes; the
  unaccepted tail waits for the next write event.  A callback runs as the last action of
  the call that completes its write, so what it writes next is a later event of the run.
 */
module WriteQueue {
  import opened Common

  /** A queued write and how much of it the library has accepted. */
  datatype Op = Op(data: Bytes, offset: nat)

  datatype Status = Success | Reset | Eof

  /** A write whose callback has run, with the status it was given. */
  datatype Finished = Finished(data: Bytes, taken: nat, status: Status)

  datatype Queue = Queue(
    ops: seq<Op>,
    open: bool,            // stream_ is not null
    writing: bool,
    armed: bool,           // want-write, which nothing switches off
    past: seq<Finished>,   // history: callbacks in the order they ran
    accepted: Bytes,       // history: bytes handed to the library
    offered: seq<Bytes>)   // history: buffers passed to async_write_some

  /** What lsquic_stream_write returns. */
  datatype Answer = Refused(reset: bool) | Takes(n: nat)

  function Head(q: Queue): Op
    requires q.ops != []
  {
    q.ops[0]
  }

  function Left(op: Op): nat {
    if op.offset <= |op.data| then |op.data| - op.offset else 0
  }

  /** The library never accepts more than it is offered. */
  predicate Fits(q: Queue, a: Answer) {
    a.Takes? && q.ops != [] ==> a.n <= Left(Head(q))
  }

  function Finish(q: Queue, status: Status): Queue
    requires q.ops != []
  {
    q.(ops := q.ops[1..], past := q.past + [Finished(Head(q).data, Head(q).offset, status)])
  }

  /** Every queued callback runs with `status`. */
  function Flush(q: Queue, status: Status): (q': Queue)
    ensures q'.ops == [] && q'.open == q.open && q'.armed == q.armed && q'.writing == q.writing
    decreases |q.ops|
  {
    if q.ops == [] then q else Flush(Finish(q, status), status)
  }

  /** The library takes `n` bytes of the head. */
  function Take(q: Queue, n: nat): Queue
    requires q.ops != [] && n <= Left(Head(q)) && Head(q).offset <= |Head(q).data|
  {
    var op := Head(q);
    q.(ops := q.ops[0 := op.(offset := op.offset + n)],
       accepted := q.accepted + op.data[op.offset..op.offset + n])
  }

  function Pump(q: Queue, a: Answer): Queue
    requires Sane(q) && Fits(q, a)
  {
    if !q.open then Flush(q, Eof)
    else if q.writing || q.ops == [] then q
    else
      match a
      case Refused(reset) => Finish(q, if reset then Reset else Eof)
      case Takes(n) =>
        var q1 := Take(q, n);
        if n > 0 && Left(Head(q1)) == 0 then Finish(q1, Success)
        else q1.(writing := true, armed := true)
  }

  datatype Event =
    | Write(data: Bytes, answer: Answer)
    | Writeable(answer: Answer)
    | Close
    | PeerReset(how: nat)

  function Push(q: Queue, data: Bytes): Queue {
    q.(ops := q.ops + [Op(data, 0)], offered := q.offered + [data])
  }

  predicate Enabled(q: Queue, e: Event) {
    match e
    case Write(data, a) => Fits(Push(q, data), a)
    case Writeable(a) => q.open && Fits(q, a)
    case _ => true
  }

  function Step(q: Queue, e: Event): Queue
    requires Sane(q) && Enabled(q, e)
  {
    match e
    case Write(data, a) => Pump(Push(q, data), a)
    case Writeable(a) => Pump(q.(writing := false), a)
    case Close => Flush(q.(open := false), Eof).(writing := false)
    case PeerReset(how) => if how == 1 || how == 2 then Flush(q, Reset).(writing := false) else q
  }

  // ---- the invariant ----------------------------------------------------------

  predicate Sane(q: Queue) {
    forall i :: 0 <= i < |q.ops| ==> q.ops[i].offset <= |q.ops[i].data|
  }

  function Datas(ops: seq<Op>): seq<Bytes> {
    seq(|ops|, i requires 0 <= i < |ops| => ops[i].data)
  }

  function PastDatas(past: seq<Finished>): seq<Bytes> {
    seq(|past|, i requires 0 <= i < |past| => past[i].data)
  }

  /** What the library has accepted of finished writes, in order. */
  function PastTaken(past: seq<Finished>): Bytes {
    if past == [] then []
    else
      var f := past[|past| - 1];
      PastTaken(past[..|past| - 1]) + (if f.taken <= |f.data| then f.data[..f.taken] else [])
  }

  /** What it has accepted of the head of the queue. */
  function HeadTaken(ops: seq<Op>): Bytes {
    if ops == [] || ops[0].offset > |ops[0].data| then [] else ops[0].data[..ops[0].offset]
  }

  predicate Ordered(q: Queue) {
    && (forall i :: 0 < i < |q.ops| ==> q.ops[i].offset == 0)
    && q.offered == PastDatas(q.past) + Datas(q.ops)
    && q.accepted == PastTaken(q.past) + HeadTaken(q.ops)
  }

  /** Success means the whole buffer was accepted, and that there was one. */
  predicate Honest(q: Queue) {
    forall i :: 0 <= i < |q.past| ==>
      q.past[i].taken <= |q.past[i].data| && (q.past[i].status == Success ==> q.past[i].taken == |q.past[i].data| > 0)
  }

  /** An open stream with something queued will be called back; a closed one has nothing queued. */
  predicate Live(q: Queue) {
    && (q.open && q.ops != [] ==> q.armed)
    && (!q.open ==> q.ops == [])
    && (q.writing ==> q.armed)
  }

  predicate Inv(q: Queue) {
    Sane(q) && Ordered(q) && Honest(q) && Live(q)
  }

  const EMPTY := Queue([], true, false, false, [], [], [])
}
