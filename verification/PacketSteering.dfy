/**
  Where the destination connection ID sits in a packet (section 5 of RFC 8999), the
  demultiplexer as an object, and the in-kernel steering rule that must agree with it.
 */
module PacketSteering {
  import opened Common
  import opened CidRouting

  type Packet = Bytes

  predicate LongHeader(p: Packet) {
    p != [] && p[0] >= 0x80
  }

  /** The destination connection ID, when the packet is long enough to hold it. */
  function Dcid(p: Packet): (cid: Option<Cid>)
    ensures cid.Some? ==> (if LongHeader(p) then 6 + |cid.value| <= |p| else 1 + |cid.value| <= |p|)
  {
    if LongHeader(p) then
      if |p| >= 6 && 6 + p[5] <= |p| then Some(p[6..6 + p[5]]) else None
    else if |p| >= 1 + SERVER_CID_LEN then Some(p[1..1 + SERVER_CID_LEN])
    else None
  }

  // ---- packets as they are built ----------------------------------------------

  /** A long header: its first byte, four bytes of version, and the ID behind its length. */
  function LongPacket(b: byte, version: Bytes, cid: Cid, rest: Bytes): Packet
    requires b >= 0x80 && |version| == 4 && |cid| <= 255
  {
    [b] + version + [|cid|] + cid + rest
  }

  /** A short header: its first byte and an ID of the length that servers use. */
  function ShortPacket(b: byte, cid: Cid, rest: Bytes): Packet
    requires b < 0x80 && |cid| == 8
  {
    [b] + cid + rest
  }

  ghost predicate IsLong(p: Packet, cid: Cid) {
    exists b: byte, version, rest ::
      b >= 0x80 && |version| == 4 && |cid| <= 255 && p == LongPacket(b, version, cid, rest)
  }

  ghost predicate IsShort(p: Packet, cid: Cid) {
    exists b: byte, rest :: b < 0x80 && |cid| == 8 && p == ShortPacket(b, cid, rest)
  }

  lemma DcidOfLong(b: byte, version: Bytes, cid: Cid, rest: Bytes)
    requires b >= 0x80 && |version| == 4 && |cid| <= 255
    ensures Dcid(LongPacket(b, version, cid, rest)) == Some(cid)
  {
    var p := LongPacket(b, version, cid, rest);
    assert p[0] == b && p[5] == |cid| && p[6..6 + |cid|] == cid;
  }

  lemma DcidOfShort(b: byte, cid: Cid, rest: Bytes)
    requires b < 0x80 && |cid| == 8
    ensures Dcid(ShortPacket(b, cid, rest)) == Some(cid)
  {
    var p := ShortPacket(b, cid, rest);
    assert p[0] == b && p[1..9] == cid;
  }

  lemma BuiltLong(p: Packet)
    requires LongHeader(p) && Dcid(p).Some?
    ensures IsLong(p, Dcid(p).value)
  {
    var cid := Dcid(p).value;
    var n := |cid|;
    assert p == [p[0]] + p[1..5] + [n] + p[6..6 + n] + p[6 + n..];
    assert p == LongPacket(p[0], p[1..5], cid, p[6 + n..]);
  }

  lemma BuiltShort(p: Packet)
    requires !LongHeader(p) && Dcid(p).Some?
    ensures IsShort(p, Dcid(p).value)
  {
    assert p == ShortPacket(p[0], Dcid(p).value, p[9..]);
  }

  /** The ID of a packet is the one it was built around, and a packet that is built in neither way has
      none. */
  lemma DcidIff(p: Packet, cid: Cid)
    ensures Dcid(p) == Some(cid) <==> IsLong(p, cid) || IsShort(p, cid)
  {
    if IsLong(p, cid) {
      var b: byte, version, rest :|
        b >= 0x80 && |version| == 4 && |cid| <= 255 && p == LongPacket(b, version, cid, rest);
      DcidOfLong(b, version, cid, rest);
    }
    if IsShort(p, cid) {
      var b: byte, rest :| b < 0x80 && |cid| == 8 && p == ShortPacket(b, cid, rest);
      DcidOfShort(b, cid, rest);
    }
    if Dcid(p) == Some(cid) {
      if LongHeader(p) { BuiltLong(p); } else { BuiltShort(p); }
    }
  }

  lemma NoDcidIff(p: Packet)
    ensures Dcid(p) == None <==> forall cid: Cid :: !IsLong(p, cid) && !IsShort(p, cid)
  {
    forall cid: Cid
      ensures Dcid(p) == Some(cid) <==> IsLong(p, cid) || IsShort(p, cid)
    {
      DcidIff(p, cid);
    }
    if Dcid(p).Some? { assert IsLong(p, Dcid(p).value) || IsShort(p, Dcid(p).value); }
  }

  /** A packet built around an ID that a worker has generated reaches that worker, whatever the table has
      been through. */
  lemma PacketReachesIssuer(workers: nat, events: seq<Event>, states: seq<Demux>, i: nat, p: Packet, cid: Cid, w: nat)
    requires 0 < workers <= 256 && Run(workers, events, states) && i < |states| && (cid, w) in states[i].issued
    requires IsLong(p, cid) || IsShort(p, cid)
    ensures Route(states[i].table, workers, Dcid(p)) == Some(w)
  {
    DcidIff(p, cid);
    IssuedReachesIssuer(workers, events, states, i, cid, w);
  }

  // ---- the demultiplexer ------------------------------------------------------

  class QuicPacketDemux {
    const workers: nat
    var cidToWorker: Table

    constructor (workers: nat)
      ensures this.workers == workers && cidToWorker == map[]
    {
      this.workers := workers;
      cidToWorker := map[];
    }

    method RegisterCid(key: Cid, worker: nat)
      modifies this
      ensures cidToWorker == old(cidToWorker)[key := worker]
    {
      cidToWorker := cidToWorker[key := worker];
    }

    method RemoveCid(key: Cid)
      modifies this
      ensures cidToWorker == old(cidToWorker) - {key}
    {
      cidToWorker := cidToWorker - {key};
    }

    /** -1 drops the packet. */
    method RoutePacket(p: Packet) returns (w: int)
      ensures w == match Route(cidToWorker, workers, Dcid(p)) case None => -1 case Some(k) => k
    {
      if workers == 0 {
        return -1;
      }
      var cid := Dcid(p);
      if cid.None? || cid.value == [] {
        return -1;
      }
      var key := cid.value;
      if key in cidToWorker {
        return cidToWorker[key];
      }
      if key[0] < workers {
        return key[0];
      }
      var h := HashCid(key);
      return h % workers;
    }
  }

  /** FNV-1a over the bytes of a connection ID. */
  method HashCid(key: Cid) returns (h: nat)
    ensures h == Fnv(key)
  {
    h := FNV_OFFSET;
    for i := 0 to |key|
      invariant h == Fnv(key[..i])
    {
      assert key[..i + 1][..i] == key[..i];
      h := XorByte(h, key[i]);
      h := h * FNV_PRIME % TWO_64;
    }
    assert key[..|key|] == key;
  }

  /** The engine's connection ID generator: random bytes behind the routing byte. */
  method GenerateScid(cid: array<byte>, worker: int, random: nat -> byte)
    requires cid.Length > 0
    modifies cid
    ensures cid[0] == if worker >= 0 then worker % 256 else random(cid.Length)
    ensures forall i :: 1 <= i < cid.Length ==> cid[i] == random(i)
    ensures worker >= 0 && cid.Length == SERVER_CID_LEN ==> Generated(cid[..], worker)
  {
    for i := 1 to cid.Length
      invariant forall j :: 1 <= j < i ==> cid[j] == random(j)
    {
      cid[i] := random(i);
    }
    cid[0] := if worker >= 0 then worker % 256 else random(cid.Length);
  }

  // ---- the in-kernel rule -----------------------------------------------------

  const N_WORKERS := 4

  predicate ZeroVersion(p: Packet)
    requires |p| >= 5
  {
    p[1] == 0 && p[2] == 0 && p[3] == 0 && p[4] == 0
  }

  /** Routing byte and hash that the program extracts. */
  function Probe(p: Packet): (nat, nat)
    requires |p| >= 1 + SERVER_CID_LEN
  {
    if !LongHeader(p) then (p[1], (p[1] as int + p[2] as int) % 256)
    else if !ZeroVersion(p) && 1 <= p[5] <= 20 && 6 + p[5] <= |p| then (p[6], (p[6] as int + p[5] as int) % 256)
    else (0xff, 0)
  }

  /** The socket selected for a UDP payload; None drops the packet. */
  function Steer(p: Packet): (w: Option<nat>)
    ensures w.Some? ==> w.value < N_WORKERS
  {
    if |p| < 1 + SERVER_CID_LEN then None
    else
      var (rb, h) := Probe(p);
      Some(if rb < N_WORKERS then rb else h % N_WORKERS)
  }

  /** A packet the program parses: a short header, or a long one with a version. */
  predicate Steerable(p: Packet) {
    |p| >= 1 + SERVER_CID_LEN && (LongHeader(p) ==> !ZeroVersion(p))
  }

  lemma AgreesOn(events: seq<Event>, states: seq<Demux>, i: nat, p: Packet, cid: Cid, w: nat)
    requires Run(N_WORKERS, events, states) && i < |states|
    requires (cid, w) in states[i].issued && Steerable(p) && Dcid(p) == Some(cid)
    ensures Steer(p) == Route(states[i].table, N_WORKERS, Dcid(p)) == Some(w)
  {
    IssuedReachesIssuer(N_WORKERS, events, states, i, cid, w);
    RunAgrees(N_WORKERS, events, states, i);
    assert Generated(cid, w) && w < N_WORKERS;
    if LongHeader(p) {
      assert p[5] == 8 && p[6] == cid[0];
    } else {
      assert p[1] == cid[0];
    }
  }

  /** Kernel and user space hand a packet built around a generated ID to the same worker, its generator,
      in every reachable state of the table: every short header, and every long one with a version. */
  lemma KernelAgrees(events: seq<Event>, states: seq<Demux>, i: nat, b: byte, version: Bytes, cid: Cid, rest: Bytes,
                     w: nat)
    requires Run(N_WORKERS, events, states) && i < |states| && (cid, w) in states[i].issued
    requires b >= 0x80 ==> |version| == 4 && version != [0, 0, 0, 0]
    ensures |cid| == 8
    ensures var p := if b >= 0x80 then LongPacket(b, version, cid, rest) else ShortPacket(b, cid, rest);
            Steer(p) == Route(states[i].table, N_WORKERS, Dcid(p)) == Some(w)
  {
    RunAgrees(N_WORKERS, events, states, i);
    assert Generated(cid, w);
    if b >= 0x80 {
      var p := LongPacket(b, version, cid, rest);
      DcidOfLong(b, version, cid, rest);
      assert p[1..5] == version;
      assert version == [version[0], version[1], version[2], version[3]];
      AgreesOn(events, states, i, p, cid, w);
    } else {
      DcidOfShort(b, cid, rest);
      AgreesOn(events, states, i, ShortPacket(b, cid, rest), cid, w);
    }
  }

  // ---- connection IDs chosen by clients ---------------------------------------

  /** The low two bits of the hash, from the low two bits of the bytes. */
  function LowHash(cid: Cid): (h: nat)
    ensures h < 4
  {
    if cid == [] then 1 else 3 * Xor(LowHash(cid[..|cid| - 1]), cid[|cid| - 1] % 4, 2) % 4
  }

  lemma SumParity(u: nat, v: nat)
    ensures (u + v) % 2 == (u % 2 + v % 2) % 2
  {
  }

  lemma LowBits(a: nat)
    ensures a % 4 % 2 == a % 2 && a % 4 / 2 == a / 2 % 2
  {
  }

  lemma XorUnfold(a: nat, b: nat, bits: nat)
    requires bits >= 2
    ensures Xor(a, b, bits) == (a + b) % 2 + 2 * ((a / 2 + b / 2) % 2) + 4 * Xor(a / 2 / 2, b / 2 / 2, bits - 2)
  {
    assert Xor(a / 2, b / 2, bits - 1) == (a / 2 + b / 2) % 2 + 2 * Xor(a / 2 / 2, b / 2 / 2, bits - 2);
  }

  lemma Mod4(s: nat, t: nat, high: nat)
    requires s < 2 && t < 2
    ensures (s + 2 * t + 4 * high) % 4 == s + 2 * t
  {
  }

  lemma ParityLow(a: nat, b: nat)
    ensures (a % 4 + b % 4) % 2 == (a + b) % 2 && (a % 4 / 2 + b % 4 / 2) % 2 == (a / 2 + b / 2) % 2
  {
    LowBits(a);
    LowBits(b);
    SumParity(a, b);
    SumParity(a % 4, b % 4);
    SumParity(a / 2, b / 2);
    SumParity(a % 4 / 2, b % 4 / 2);
  }

  lemma XorLow(a: nat, b: nat)
    ensures Xor(a, b, 8) % 4 == Xor(a % 4, b % 4, 2)
  {
    XorUnfold(a, b, 8);
    XorUnfold(a % 4, b % 4, 2);
    ParityLow(a, b);
    Mod4((a + b) % 2, (a / 2 + b / 2) % 2, Xor(a / 2 / 2, b / 2 / 2, 6));
  }

  lemma Mod256(h: nat, x: nat)
    ensures h % 256 % 4 == h % 4
    ensures (256 * (h / 256) + x) % 4 == x % 4
  {
    var q := h / 256;
    assert h == 256 * q + h % 256;
    assert h == 4 * (64 * q) + h % 256;
    assert 256 * q + x == 4 * (64 * q) + x;
  }

  lemma XorByteLow(h: nat, b: byte)
    ensures XorByte(h, b) % 4 == Xor(h % 4, b % 4, 2)
  {
    Mod256(h, Xor(h % 256, b, 8));
    XorLow(h % 256, b);
  }

  lemma DropHigh(p: nat)
    ensures p % TWO_64 % 4 == p % 4
  {
    var q, r := p / TWO_64, p % TWO_64;
    assert p == 4 * (0x4000_0000_0000_0000 * q) + r;
  }

  lemma PrimeLow(x: nat)
    ensures x * FNV_PRIME % 4 == 3 * x % 4
  {
    var y := 0x4000_0000_6c * x;
    assert x * FNV_PRIME == 4 * y + 3 * x;
  }

  lemma ThreeLow(x: nat)
    ensures 3 * x % 4 == 3 * (x % 4) % 4
  {
    var q, r := x / 4, x % 4;
    assert 3 * x == 4 * (3 * q) + 3 * r;
  }

  lemma MulLow(x: nat)
    ensures x * FNV_PRIME % TWO_64 % 4 == 3 * (x % 4) % 4
  {
    DropHigh(x * FNV_PRIME);
    PrimeLow(x);
    ThreeLow(x);
  }

  lemma {:induction false} FnvLow(cid: Cid)
    ensures Fnv(cid) % 4 == LowHash(cid)
  {
    if cid != [] {
      var h, b := Fnv(cid[..|cid| - 1]), cid[|cid| - 1];
      FnvLow(cid[..|cid| - 1]);
      XorByteLow(h, b);
      MulLow(XorByte(h, b));
    }
  }

  /** What the kernel computes for an ID without a routing byte. */
  function KernelSum(p: Packet, cid: Cid): nat
    requires cid != [] && (LongHeader(p) || |cid| >= 2)
  {
    (cid[0] as int + if LongHeader(p) then |cid| else cid[1]) % 4
  }

  /** The kernel looks at the ID: in a short header always, in a long one with a version if the ID is not
      longer than 20 bytes. */
  predicate LooksAt(p: Packet, cid: Cid)
    requires Dcid(p) == Some(cid)
  {
    LongHeader(p) ==> !ZeroVersion(p) && |cid| <= 20
  }

  lemma SteerSeen(p: Packet, cid: Cid)
    requires |p| >= 1 + SERVER_CID_LEN && Dcid(p) == Some(cid) && cid != [] && LooksAt(p, cid)
    ensures Steer(p) == Some(if cid[0] < N_WORKERS then cid[0] else KernelSum(p, cid))
  {
    if LongHeader(p) {
      assert p[5] == |cid| && p[6] == cid[0];
    } else {
      assert p[1] == cid[0] && p[2] == cid[1];
    }
  }

  lemma SteerUnseen(p: Packet)
    requires |p| >= 1 + SERVER_CID_LEN
    requires Dcid(p).Some? && Dcid(p).value != [] ==> !LooksAt(p, Dcid(p).value)
    ensures Steer(p) == Some(0)
  {
  }

  /** Both drop the packet; or neither does, and they pick the same worker: the one that the first byte
      names, or that two different hashes give, the low bits of FNV-1a and the sum the kernel forms.
      The kernel picks worker 0 where it does not look at the ID. */
  predicate Alike(p: Packet) {
    match Dcid(p)
    case None => |p| < 1 + SERVER_CID_LEN
    case Some(cid) =>
      if cid == [] then |p| < 1 + SERVER_CID_LEN
      else if |p| < 1 + SERVER_CID_LEN then false
      else if LooksAt(p, cid) then cid[0] < N_WORKERS || LowHash(cid) == KernelSum(p, cid)
      else cid[0] == 0 || (cid[0] >= N_WORKERS && LowHash(cid) == 0)
  }

  lemma RouteOf(events: seq<Event>, states: seq<Demux>, i: nat, cid: Cid)
    requires Run(N_WORKERS, events, states) && i < |states| && cid != []
    ensures Route(states[i].table, N_WORKERS, Some(cid)) == Some(if cid[0] < N_WORKERS then cid[0] else LowHash(cid))
  {
    TableIsACache(N_WORKERS, events, states, i, cid);
    FnvLow(cid);
  }

  /** Exactly when kernel and user space do the same with a packet, for every packet and in every
      reachable state of the table. */
  lemma KernelAgreesIff(events: seq<Event>, states: seq<Demux>, i: nat, p: Packet)
    requires Run(N_WORKERS, events, states) && i < |states|
    ensures Steer(p) == Route(states[i].table, N_WORKERS, Dcid(p)) <==> Alike(p)
  {
    RunAgrees(N_WORKERS, events, states, i);
    if Dcid(p).Some? && Dcid(p).value != [] {
      var cid := Dcid(p).value;
      RouteOf(events, states, i, cid);
      if |p| >= 1 + SERVER_CID_LEN {
        if LooksAt(p, cid) { SteerSeen(p, cid); } else { SteerUnseen(p); }
      }
    } else if |p| >= 1 + SERVER_CID_LEN {
      SteerUnseen(p);
    }
  }

  /** They do not always: the first packet of a connection may be steered elsewhere. */
  lemma KernelDiffersOnClientIds()
    ensures exists p: Packet :: Steerable(p) && Steer(p) != Route(map[], N_WORKERS, Dcid(p))
  {
    var p: Packet := [0x40, 4, 0, 0, 0, 0, 0, 0, 0];
    var d := Demux(N_WORKERS, map[], {});
    assert Run(N_WORKERS, [], [d]);
    KernelAgreesIff([], [d], 0, p);
    FourDiffers(p);
  }

  lemma FourDiffers(p: Packet)
    requires p == [0x40, 4, 0, 0, 0, 0, 0, 0, 0]
    ensures Steerable(p) && !Alike(p)
  {
    var cid: Cid := p[1..9];
    LowHashOfFour(cid);
    assert Dcid(p) == Some(cid) && KernelSum(p, cid) == 0;
  }

  /** A packet with an empty ID goes to worker 0 in the kernel and nowhere in user space. */
  lemma KernelDiffersOnEmptyIds(p: Packet)
    requires |p| >= 1 + SERVER_CID_LEN && LongHeader(p) && p[5] == 0
    ensures Steer(p) == Some(0) && Route(map[], N_WORKERS, Dcid(p)) == None
  {
    assert Dcid(p) == Some([]);
    SteerUnseen(p);
  }

  lemma LowHashOfFour(cid: Cid)
    requires |cid| == 8 && cid[0] == 4 && forall i :: 1 <= i < 8 ==> cid[i] == 0
    ensures LowHash(cid) == 1
  {
    assert Xor(1, 0, 2) == 1 && Xor(3, 0, 2) == 3;
    assert LowHash(cid[..0]) == 1;
    assert cid[..1][..0] == cid[..0] && LowHash(cid[..1]) == 3;
    assert cid[..2][..1] == cid[..1] && LowHash(cid[..2]) == 1;
    assert cid[..3][..2] == cid[..2] && LowHash(cid[..3]) == 3;
    assert cid[..4][..3] == cid[..3] && LowHash(cid[..4]) == 1;
    assert cid[..5][..4] == cid[..4] && LowHash(cid[..5]) == 3;
    assert cid[..6][..5] == cid[..5] && LowHash(cid[..6]) == 1;
    assert cid[..7][..6] == cid[..6] && LowHash(cid[..7]) == 3;
    assert cid == cid[..8] && cid[..8][..7] == cid[..7];
  }

  // ---- the hash ---------------------------------------------------------------

  lemma FnvMore(cid: Cid, b: byte)
    ensures Fnv(cid + [b]) == XorByte(Fnv(cid), b) * FNV_PRIME % TWO_64
  {
    assert (cid + [b])[..|cid|] == cid;
  }

  lemma XorA()
    ensures Xor(37, 97, 8) == 68
  {
    assert Xor(0, 0, 1) == 0;
    assert Xor(0, 1, 2) == 1;
    assert Xor(1, 3, 3) == 2;
    assert Xor(2, 6, 4) == 4;
    assert Xor(4, 12, 5) == 8;
    assert Xor(9, 24, 6) == 17;
    assert Xor(18, 48, 7) == 34;
  }

  lemma XorF()
    ensures Xor(37, 102, 8) == 67
  {
    assert Xor(0, 0, 1) == 0;
    assert Xor(0, 1, 2) == 1;
    assert Xor(1, 3, 3) == 2;
    assert Xor(2, 6, 4) == 4;
    assert Xor(4, 12, 5) == 8;
    assert Xor(9, 25, 6) == 16;
    assert Xor(18, 51, 7) == 33;
  }

  lemma XorO()
    ensures Xor(217, 111, 8) == 182
  {
    assert Xor(1, 0, 1) == 1;
    assert Xor(3, 1, 2) == 2;
    assert Xor(6, 3, 3) == 5;
    assert Xor(13, 6, 4) == 11;
    assert Xor(27, 13, 5) == 22;
    assert Xor(54, 27, 6) == 45;
    assert Xor(108, 55, 7) == 91;
  }

  lemma Products()
    ensures (256 * (FNV_OFFSET / 256) + 68) * FNV_PRIME % TWO_64 == 0xaf63dc4c8601ec8c
    ensures (256 * (FNV_OFFSET / 256) + 67) * FNV_PRIME % TWO_64 == 0xaf63db4c8601ead9
    ensures (256 * (0xaf63db4c8601ead9 / 256) + 182) * FNV_PRIME % TWO_64 == 0x8985907b541d342
  {
  }

  lemma FnvOne(cid: Cid, h: nat, b: byte, x: nat)
    requires Fnv(cid) == h && Xor(h % 256, b, 8) == x
    ensures Fnv(cid + [b]) == (256 * (h / 256) + x) * FNV_PRIME % TWO_64
  {
    FnvMore(cid, b);
  }

  lemma FnvOfA()
    ensures Fnv([] + [97]) == 0xaf63dc4c8601ec8c
  {
    XorA();
    Products();
    FnvOne([], FNV_OFFSET, 97, 68);
  }

  lemma FnvOfF()
    ensures Fnv([] + [102]) == 0xaf63db4c8601ead9
  {
    XorF();
    Products();
    FnvOne([], FNV_OFFSET, 102, 67);
  }

  lemma FnvOfFo()
    ensures Fnv([] + [102] + [111]) == 0x8985907b541d342
  {
    FnvOfF();
    XorO();
    Products();
    FnvOne([] + [102], 0xaf63db4c8601ead9, 111, 182);
  }

  /** The published values of FNV-1a for the empty text and for three others. */
  lemma FnvSamples()
    ensures Fnv([]) == 0xcbf29ce484222325 && Fnv([] + Ascii("a")) == 0xaf63dc4c8601ec8c
    ensures Fnv([] + Ascii("f")) == 0xaf63db4c8601ead9 && Fnv([] + Ascii("f") + Ascii("o")) == 0x8985907b541d342
  {
    FnvOfA();
    FnvOfF();
    FnvOfFo();
    assert Ascii("a") == [97] && Ascii("f") == [102] && Ascii("o") == [111];
  }

  /** A packet goes to the worker its ID is registered for; an unknown one to the worker that its first byte
      names, if there is one, and otherwise by the hash of the whole ID. */
  lemma PacketRoutes(table: Table, workers: nat, p: Packet, cid: Cid)
    requires workers > 0 && cid != [] && (IsLong(p, cid) || IsShort(p, cid))
    ensures Route(table, workers, Dcid(p)) ==
            Some(if cid in table then table[cid] else if cid[0] < workers then cid[0] else Fnv(cid) % workers)
  {
    DcidIff(p, cid);
  }
}
