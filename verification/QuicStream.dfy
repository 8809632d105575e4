/** The stream wrapper as the object that updates its queue, proved equal to `WriteQueue`. */
module QuicStream {
  import opened Common
  import opened WriteQueue

  class QuicTransportStream {
    var writeQueue: seq<Op>
    var open: bool
    var writing: bool
    var armed: bool
    // What the library accepted and which callbacks ran, in order.
    ghost var past: seq<Finished>
    ghost var accepted: Bytes
    ghost var offered: seq<Bytes>

    constructor ()
      ensures State() == EMPTY
    {
      writeQueue, open, writing, armed := [], true, false, false;
      past, accepted, offered := [], [], [];
    }

    ghost function State(): Queue
      reads this
    {
      Queue(writeQueue, open, writing, armed, past, accepted, offered)
    }

    /** Calls every queued callback with an error, front first. */
    method FlushAll(status: Status)
      modifies this
      ensures State() == Flush(old(State()), status)
    {
      while writeQueue != []
        invariant Flush(State(), status) == Flush(old(State()), status)
        decreases |writeQueue|
      {
        CompleteFront(status);
      }
    }

    /** Removes the front write and calls its callback. */
    method CompleteFront(status: Status)
      requires writeQueue != []
      modifies this
      ensures State() == Finish(old(State()), status)
    {
      past := past + [Finished(writeQueue[0].data, writeQueue[0].offset, status)];
      writeQueue := writeQueue[1..];
    }

    /** `answer` is what the library returns if it is asked. */
    method PumpWrite(answer: Answer)
      requires Sane(State()) && Fits(State(), answer)
      modifies this
      ensures State() == Pump(old(State()), answer)
    {
      if !open {
        FlushAll(Eof);
        return;
      }
      if writing || writeQueue == [] {
        return;
      }
      var op := writeQueue[0];
      match answer {
        case Refused(reset) => CompleteFront(if reset then Reset else Eof);
        case Takes(n) =>
          writeQueue := writeQueue[0 := op.(offset := op.offset + n)];
          accepted := accepted + op.data[op.offset..op.offset + n];
          if n > 0 && op.offset + n >= |op.data| {
            CompleteFront(Success);
          } else {
            writing, armed := true, true;
          }
      }
    }

    method AsyncWriteSome(data: Bytes, answer: Answer)
      requires Sane(State()) && Enabled(State(), Write(data, answer))
      modifies this
      ensures State() == Step(old(State()), Write(data, answer))
    {
      writeQueue := writeQueue + [Op(data, 0)];
      offered := offered + [data];
      PumpWrite(answer);
    }

    method OnWriteable(answer: Answer)
      requires Sane(State()) && Enabled(State(), Writeable(answer))
      modifies this
      ensures State() == Step(old(State()), Writeable(answer))
    {
      writing := false;
      PumpWrite(answer);
    }

    method OnClose()
      requires Sane(State())
      modifies this
      ensures State() == Step(old(State()), Close)
    {
      open := false;
      FlushAll(Eof);
      writing := false;
    }

    method OnReset(how: nat)
      requires Sane(State())
      modifies this
      ensures State() == Step(old(State()), PeerReset(how))
    {
      if how == 1 || how == 2 {
        FlushAll(Reset);
        writing := false;
      }
    }
  }
}
