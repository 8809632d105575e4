/** What the decoder makes of any bytes at all, well-formed or not: where it stops, whether it reports
    success, and what it has then delivered.  None of this depends on how the bytes are cut into reads. */
module ChunkedStop {
  import opened Common
  import opened Network
  import opened ChunkedModel
  import opened ChunkedProofs

  // ---- on bytes alone ---------------------------------------------------------

  /** The place of the first LF, or the length when there is none. */
  function LfAt(q: Bytes): (k: nat)
    ensures k <= |q| && LF !in q[..k] && (k < |q| ==> q[k] == LF)
  {
    if q == [] || q[0] == LF then 0
    else
      assert q[..1 + LfAt(q[1..])] == [q[0]] + q[1..][..LfAt(q[1..])];
      1 + LfAt(q[1..])
  }

  /** What is left unread, whether the end is reported as one, and the body if so. */
  datatype Ended = Ended(left: Bytes, ok: bool, content: Bytes)

  /** Behind the last chunk: up to the first blank line. */
  function FromTrailers(q: Bytes): Ended {
    var k := LfAt(q);
    if k == |q| then Ended([], false, [])
    else if Strip(q[..k]) == [] then Ended(q[k + 1..], true, [])
    else FromTrailers(q[k + 1..])
  }

  /** At a size line.  A line without a size is the last that is read. */
  function FromLine(q: Bytes, end: Ending): Ended
    decreases |q|
  {
    var k := LfAt(q);
    if k == |q| then Ended([], false, [])
    else
      match ChunkSize(Strip(q[..k]))
      case None => Ended(q[k + 1..], false, [])
      case Some(0) => FromTrailers(q[k + 1..])
      case Some(n) => FromData(n, q[k + 1..], end)
  }

  /** With `n` bytes of a chunk to come, and the two that end it, which are not looked at. */
  function FromData(n: nat, q: Bytes, end: Ending): Ended
    requires n > 0
    decreases |q|
  {
    if |q| < n then Ended([], end == EmptyRead, q)
    else if |q| < n + 2 then Ended([], false, [])
    else
      var e := FromLine(q[n + 2..], end);
      e.(content := q[..n] + e.content)
  }

  /** From where the decoder is. */
  function Outlook(d: Decoder, q: Bytes, end: Ending): Ended {
    if d.finished then Ended(q, true, [])
    else if d.remaining == 0 then FromLine(q, end)
    else FromData(d.remaining, q, end)
  }

  // ---- lines ------------------------------------------------------------------

  lemma {:induction false} NoLine(net: Net, text: Bytes)
    requires LF !in net.rest
    ensures !ReadLine(net, text).ok && ReadLine(net, text).net.rest == []
    decreases |net.rest|
  {
    if net.rest != [] {
      var b := net.rest[0];
      assert net.rest == [b] + net.rest[1..];
      OneByte(net, b, net.rest[1..]);
      NoLine(After(net, 1), if b == CR then text else text + [b]);
    }
  }

  /** A line is read as far as its LF, or else to the end. */
  lemma LineAgrees(net: Net)
    ensures var l, k := ReadLine(net, []), LfAt(net.rest);
            if k == |net.rest| then !l.ok && l.net.rest == []
            else l.ok && l.text == Strip(net.rest[..k]) && l.net.rest == net.rest[k + 1..]
  {
    var q, k := net.rest, LfAt(net.rest);
    if k == |q| {
      assert q[..k] == q;
      NoLine(net, []);
    } else {
      assert q == q[..k] + ([LF] + q[k + 1..]);
      FoundLine(net, q[..k], q[k + 1..]);
    }
  }

  lemma FoundLine(net: Net, line: Bytes, suffix: Bytes)
    requires net.rest == line + ([LF] + suffix) && LF !in line
    ensures var l := ReadLine(net, []); l.ok && l.text == Strip(line) && l.net.rest == suffix
  {
    ReadsLine(net, [], line, suffix);
    assert [] + Strip(line) == Strip(line);
  }

  lemma {:induction false} TrailersAgree(net: Net)
    ensures var l, e := ReadTrailers(net), FromTrailers(net.rest);
            l.ok == e.ok && l.net.rest == e.left && e.content == []
    decreases |net.rest|
  {
    LineAgrees(net);
    var l := ReadLine(net, []);
    if l.ok && l.text != [] { TrailersAgree(l.net); }
  }

  // ---- chunk data -------------------------------------------------------------

  lemma {:induction false} SkipsShort(net: Net, count: nat)
    requires |net.rest| < count
    ensures !ReadExact(net, count).ok && ReadExact(net, count).net.rest == []
    decreases count
  {
    var want := Min(count, 64);
    var n := Size(net, want);
    if net.rest != [] { SkipsShort(After(net, want), count - n); }
  }

  /** The bytes that end a chunk. */
  lemma SkipsTwo(net: Net)
    ensures var s := ReadExact(net, 2);
            s.ok == (|net.rest| >= 2) && s.net.rest == if |net.rest| >= 2 then net.rest[2..] else []
  {
    if |net.rest| < 2 {
      SkipsShort(net, 2);
    } else {
      assert net.rest == net.rest[..2] + net.rest[2..];
      SkipsExactly(net, net.rest[..2], net.rest[2..]);
    }
  }

  /** A read and what it leaves agree with what was foretold. */
  predicate Agrees(e: Ended, r: Result, end: Ending) {
    if r.out.Err? then !e.ok && r.net.rest == e.left
    else if r.out.data == [] then e.ok && e.content == [] && r.net.rest == e.left
    else
      var e' := Outlook(r.d, r.net.rest, end);
      !r.d.finished && e.left == e'.left && e.ok == e'.ok && (e.ok ==> e.content == r.out.data + e'.content)
  }

  /** Some of the data of a chunk, but not the last of it. */
  lemma PartOfData(n: nat, q: Bytes, m: nat, end: Ending)
    requires 0 < m < n && m <= |q|
    ensures var e, e' := FromData(n, q, end), FromData(n - m, q[m..], end);
            e.left == e'.left && e.ok == e'.ok && (e.ok ==> e.content == q[..m] + e'.content)
  {
    if |q| < n {
      assert q == q[..m] + q[m..];
    } else if |q| >= n + 2 {
      assert q[m..][n - m + 2..] == q[n + 2..];
      var tail := FromLine(q[n + 2..], end).content;
      assert q[..n] + tail == q[..m] + (q[m..][..n - m] + tail);
    }
  }

  /** All the data of a chunk is read, and the two bytes behind it. */
  lemma LastOfData(d: Decoder, net: Net, q: Bytes, n: nat, end: Ending)
    requires 0 < n <= |q| && net.rest == q[n..] && d == Decoder(0, false)
    ensures Agrees(FromData(n, q, end), EndPayload(d, net, q[..n]), end)
  {
    SkipsTwo(net);
    if |q| >= n + 2 { assert q[n..][2..] == q[n + 2..]; }
  }

  lemma PayloadAgrees(d: Decoder, net: Net, cap: nat)
    requires cap > 0 && !d.finished && d.remaining > 0
    ensures Agrees(FromData(d.remaining, net.rest, net.end), ReadPayload(d, net, cap), net.end)
  {
    var want, q := Min(cap, d.remaining), net.rest;
    var m := Size(net, want);
    if q != [] {
      if m < d.remaining {
        PartOfData(d.remaining, q, m, net.end);
      } else {
        LastOfData(Decoder(0, false), After(net, want), q, m, net.end);
      }
    }
  }

  // ---- reads ------------------------------------------------------------------

  lemma SizeAgrees(d: Decoder, net: Net, cap: nat)
    requires cap > 0 && !d.finished && d.remaining == 0
    ensures Agrees(FromLine(net.rest, net.end), ReadSize(d, net, cap), net.end)
  {
    LineAgrees(net);
    var l := ReadLine(net, []);
    if l.ok && ChunkSize(l.text).Some? {
      var n := ChunkSize(l.text).value;
      if n == 0 { TrailersAgree(l.net); } else { PayloadAgrees(d.(remaining := n), l.net, cap); }
    }
  }

  /** One read, at any place of any bytes. */
  lemma ReadAgrees(d: Decoder, net: Net, cap: nat)
    requires cap > 0
    ensures Agrees(Outlook(d, net.rest, net.end), ReadSome(d, net, cap), net.end)
  {
    if !d.finished {
      if d.remaining == 0 { SizeAgrees(d, net, cap); } else { PayloadAgrees(d, net, cap); }
    }
  }

  // ---- where it stops ---------------------------------------------------------

  lemma {:induction false} TrailersSuffix(q: Bytes)
    ensures var e := FromTrailers(q); |e.left| <= |q| && e.left == q[|q| - |e.left|..]
    decreases |q|
  {
    var k := LfAt(q);
    if k < |q| && Strip(q[..k]) != [] {
      TrailersSuffix(q[k + 1..]);
    }
  }

  lemma {:induction false} DataSuffix(n: nat, q: Bytes, end: Ending)
    requires n > 0
    ensures var e := FromData(n, q, end); |e.left| <= |q| && e.left == q[|q| - |e.left|..]
    decreases |q|, 0
  {
    if |q| >= n + 2 { LineSuffix(q[n + 2..], end); }
  }

  lemma {:induction false} LineSuffix(q: Bytes, end: Ending)
    ensures var e := FromLine(q, end); |e.left| <= |q| && e.left == q[|q| - |e.left|..]
    decreases |q|, 1
  {
    var k := LfAt(q);
    if k < |q| && ChunkSize(Strip(q[..k])).Some? {
      var n := ChunkSize(Strip(q[..k])).value;
      if n == 0 { TrailersSuffix(q[k + 1..]); } else { DataSuffix(n, q[k + 1..], end); }
    }
  }

  /** How many of the bytes of `q` a fresh decoder reads before it stops. */
  function Stop(q: Bytes): (n: nat)
    ensures n <= |q| && FromLine(q, EofError).left == q[n..]
  {
    LineSuffix(q, EofError);
    |q| - |FromLine(q, EofError).left|
  }

  lemma {:induction false} LeftAlike(q: Bytes, end: Ending, end': Ending)
    ensures FromLine(q, end).left == FromLine(q, end').left
    decreases |q|
  {
    var k := LfAt(q);
    if k < |q| && ChunkSize(Strip(q[..k])).Some? && ChunkSize(Strip(q[..k])).value > 0 {
      var n, q' := ChunkSize(Strip(q[..k])).value, q[k + 1..];
      if |q'| >= n + 2 { LeftAlike(q'[n + 2..], end, end'); }
    }
  }

  /** How the stream ends has no part in where the decoder stops. */
  lemma StopsAlike(q: Bytes, end: Ending)
    ensures FromLine(q, end).left == q[Stop(q)..]
  {
    LeftAlike(q, end, EofError);
  }
}
