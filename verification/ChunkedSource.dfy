/** The decoder as the object that updates itself, proved equal to its functional form. */
module ChunkedSource {
  import opened Common
  import opened Network
  import opened ChunkedModel

  /** A transport stream: each read takes what the network delivers next. */
  class TransportStream {
    var net: Net

    constructor (net: Net)
      ensures this.net == net
    {
      this.net := net;
    }

    method ReadSome(want: nat) returns (r: Read)
      modifies this
      ensures r == Pull(old(net), want) && net == After(old(net), want)
    {
      r := Pull(net, want);
      net := After(net, want);
    }
  }

  class ChunkedBodySource {
    const stream: TransportStream
    var sizeLine: Bytes
    var remaining: nat
    var finished: bool

    constructor (stream: TransportStream)
      ensures this.stream == stream && State() == Decoder(0, false)
    {
      this.stream := stream;
      sizeLine, remaining, finished := [], 0, false;
    }

    function State(): Decoder
      reads this
    {
      Decoder(remaining, finished)
    }

    method ReadLine() returns (ok: bool)
      modifies this`sizeLine, stream
      ensures Line(ok, sizeLine, stream.net) == ChunkedModel.ReadLine(old(stream.net), [])
    {
      sizeLine := [];
      ok := ReadLineByte();
    }

    method ReadLineByte() returns (ok: bool)
      modifies this`sizeLine, stream
      ensures Line(ok, sizeLine, stream.net) == ChunkedModel.ReadLine(old(stream.net), old(sizeLine))
      decreases |stream.net.rest|
    {
      var r := stream.ReadSome(1);
      if r.Fail? || r.data == [] {
        return false;
      }
      if r.data[0] == LF {
        return true;
      }
      if r.data[0] != CR {
        sizeLine := sizeLine + [r.data[0]];
      }
      ok := ReadLineByte();
    }

    method ReadTrailers() returns (ok: bool)
      modifies this`sizeLine, stream
      ensures Line(ok, sizeLine, stream.net) == ChunkedModel.ReadTrailers(old(stream.net))
      decreases |stream.net.rest|
    {
      ok := ReadLine();
      if ok && sizeLine != [] {
        ok := ReadTrailers();
      }
    }

    method ReadExact(count: nat) returns (ok: bool)
      requires count > 0
      modifies stream
      ensures Skip(ok, stream.net) == ChunkedModel.ReadExact(old(stream.net), count)
      decreases count
    {
      var r := stream.ReadSome(Min(count, 64));
      if r.Fail? || r.data == [] {
        return false;
      }
      if |r.data| >= count {
        return true;
      }
      ok := ReadExact(count - |r.data|);
    }

    method ReadChunkPayload(cap: nat) returns (out: Outcome)
      modifies this, stream
      ensures Result(State(), stream.net, out) == ReadPayload(old(State()), old(stream.net), cap)
    {
      var want := Min(cap, remaining);
      var r := stream.ReadSome(want);
      out := OnPayloadRead(r);
    }

    /** A read of payload has completed. */
    method OnPayloadRead(r: Read) returns (out: Outcome)
      requires r.Got? ==> |r.data| <= remaining
      modifies this, stream
      ensures Result(State(), stream.net, out) == Paid(old(State()), r, old(stream.net))
    {
      if r.Fail? {
        finished := true;
        return Err(Transport);
      }
      out := OnPayload(r.data);
    }

    /** Payload has arrived; the CRLF behind a finished chunk is skipped. */
    method OnPayload(data: Bytes) returns (out: Outcome)
      requires |data| <= remaining
      modifies this, stream
      ensures Result(State(), stream.net, out) ==
              EndPayload(old(State()).(remaining := old(remaining) - |data|), old(stream.net), data)
    {
      remaining := remaining - |data|;
      if remaining > 0 {
        return Ok(data);
      }
      var ok := ReadExact(2);
      if !ok {
        finished := true;
        return Err(Eof);
      }
      return Ok(data);
    }

    method ReadSizeLine(cap: nat) returns (out: Outcome)
      modifies this, stream
      ensures Result(State(), stream.net, out) == ReadSize(old(State()), old(stream.net), cap)
    {
      var ok := ReadLine();
      if !ok {
        finished := true;
        return Err(Eof);
      }
      var size := ChunkSize(sizeLine);
      if size.None? {
        finished := true;
        return Err(Invalid);
      }
      sizeLine := [];
      remaining := size.value;
      if remaining == 0 {
        ok := ReadTrailers();
        finished := true;
        return if ok then Ok([]) else Err(Eof);
      }
      out := ReadChunkPayload(cap);
    }

    /** One read of the body, as specified by `ChunkedModel.ReadSome`, whose runs
        `ChunkedProofs.DecodesEveryMessage` describes. */
    method ReadSome(cap: nat) returns (out: Outcome)
      modifies this, stream
      ensures Result(State(), stream.net, out) == ChunkedModel.ReadSome(old(State()), old(stream.net), cap)
    {
      if finished {
        return Ok([]);
      }
      if remaining == 0 {
        out := ReadSizeLine(cap);
      } else {
        out := ReadChunkPayload(cap);
      }
    }
  }
}
