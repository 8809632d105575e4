/**
  The read side of a transport stream.  `rest` is what the peer has still to deliver; how it is
  fragmented is an arbitrary oracle `cut`, consulted once per read, so a statement for all
  oracles is a statement for every fragmentation into nonempty reads.
 */
module Network {
  import opened Common

  /** How a read behind the last byte completes: end of file reported as an error, as TCP does, or as
      an empty read, as QUIC does, or an error because the connection broke there. */
  datatype Ending = EofError | EmptyRead | Broken

  datatype Net = Net(rest: Bytes, tick: nat, cut: nat -> nat, end: Ending)

  /** A completed read: an error, or the bytes delivered. */
  datatype Read = Fail(eof: bool) | Got(data: Bytes)

  /** How many bytes the next read of up to `want` bytes delivers. */
  function Size(net: Net, want: nat): (n: nat)
    ensures n <= want && n <= |net.rest|
    ensures want > 0 && net.rest != [] ==> n > 0
  {
    Min(Min(want, |net.rest|), if net.cut(net.tick) == 0 then 1 else net.cut(net.tick))
  }

  function Pull(net: Net, want: nat): (r: Read)
    ensures r.Got? ==> |r.data| <= want && (r.data != [] ==> net.rest != [] && want > 0)
  {
    if net.rest == [] && !net.end.EmptyRead? then Fail(net.end.EofError?) else Got(net.rest[..Size(net, want)])
  }

  function After(net: Net, want: nat): (net': Net)
    ensures |net'.rest| <= |net.rest|
    ensures want > 0 && net.rest != [] ==> |net'.rest| < |net.rest|
  {
    net.(rest := net.rest[Size(net, want)..], tick := net.tick + 1)
  }
}
