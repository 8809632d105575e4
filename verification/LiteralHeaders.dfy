/** The literal header-block parser: name and value, each behind a varint length. */
module LiteralHeaders {
  import opened Common
  import opened Headers
  import opened Varint
  import H1Head
  import H1HeadProofs

  // ---- interpretation ---------------------------------------------------------

  datatype Fields = Fields(method_: Bytes, path: Bytes, headers: seq<Field>, contentLength: Option<nat>)

  /** A content length as std::stoull reads it; None is the exception it throws. */
  function Number(v: Bytes): Option<nat> {
    var ds := H1Head.Digits(v);
    if ds == [] || H1Head.DecimalValue(ds) > SIZE_MAX then None else Some(H1Head.DecimalValue(ds))
  }

  /** One field added to what is known; None when its number cannot be read. */
  function Interpret(o: Fields, name: Bytes, value: Bytes): Option<Fields> {
    if name == P_METHOD then Some(o.(method_ := value))
    else if name == P_PATH then Some(o.(path := value))
    else if name == P_AUTHORITY then Some(o.(headers := o.headers + [Field(H1Head.HOST, value)]))
    else if name == H1Head.CONTENT_LENGTH then
      if Number(value).None? then None else Some(o.(contentLength := Number(value)))
    else if Regular(name) then Some(o.(headers := o.headers + [Field(name, value)]))
    else Some(o)
  }

  // ---- parsing ----------------------------------------------------------------

  datatype Cut = NoString | Cut(s: Bytes, rest: Bytes)

  /** A varint length and that many bytes. */
  function TakeString(data: Bytes): (c: Cut)
    ensures c.Cut? ==> |c.rest| < |data|
  {
    var d := Decode(data);
    if d.read == 0 || d.read + d.value > |data| then NoString
    else Cut(data[d.read..d.read + d.value], data[d.read + d.value..])
  }

  datatype Outcome = Malformed | Thrown | Accepted(fields: Fields)

  function ParseFrom(data: Bytes, o: Fields): Outcome
    decreases |data|
  {
    if data == [] then Accepted(o)
    else
      var name := TakeString(data);
      if name.NoString? then Malformed
      else
        var value := TakeString(name.rest);
        if value.NoString? then Malformed
        else
          match Interpret(o, name.s, value.s)
          case None => Thrown
          case Some(o') => ParseFrom(value.rest, o')
  }

  // ---- records ----------------------------------------------------------------

  datatype Record = Record(nameLength: Bytes, name: Bytes, valueLength: Bytes, value: Bytes)

  /** `length` is a varint, of any of the four lengths, for the number of bytes in `s`. */
  predicate Measures(length: Bytes, s: Bytes) {
    length != [] && Decode(length) == Decoded(|s|, |length|)
  }

  predicate RecordOk(r: Record) {
    Measures(r.nameLength, r.name) && Measures(r.valueLength, r.value)
  }

  predicate RecordsOk(rs: seq<Record>) {
    forall i :: 0 <= i < |rs| ==> RecordOk(rs[i])
  }

  function RecordBytes(r: Record): Bytes {
    r.nameLength + r.name + (r.valueLength + r.value)
  }

  function Wire(rs: seq<Record>): Bytes {
    if rs == [] then [] else RecordBytes(rs[0]) + Wire(rs[1..])
  }

  /** What the records mean, first to last. */
  function Meaning(rs: seq<Record>, o: Fields): Option<Fields> {
    if rs == [] then Some(o)
    else
      match Interpret(o, rs[0].name, rs[0].value)
      case None => None
      case Some(o') => Meaning(rs[1..], o')
  }

  // ---- the parser reads exactly the records -----------------------------------

  lemma TakesMeasured(length: Bytes, s: Bytes, rest: Bytes)
    requires Measures(length, s)
    ensures TakeString(length + s + rest) == Cut(s, rest)
    ensures Decode(length + s + rest).read == |length| && (length + s + rest)[..|length|] == length
  {
    var data := length + s + rest;
    assert data == length + (s + rest);
    DecodeLocal(length, s + rest);
    assert data[|length|..|length| + |s|] == s && data[|length| + |s|..] == rest;
  }

  lemma TakenIsMeasured(data: Bytes)
    requires TakeString(data).Cut?
    ensures var c := TakeString(data); var n := Decode(data).read;
            Measures(data[..n], c.s) && data == data[..n] + c.s + c.rest
  {
    var d := Decode(data);
    DecodeOwn(data);
    ThreeParts(data, d.read, d.read + d.value);
  }

  lemma ThreeParts(data: Bytes, a: nat, b: nat)
    requires a <= b <= |data|
    ensures data == data[..a] + data[a..b] + data[b..]
  {
  }

  /** The bytes a varint occupies decode to the same value on their own. */
  lemma DecodeOwn(data: Bytes)
    requires Decode(data).read > 0
    ensures Decode(data[..Decode(data).read]) == Decode(data)
  {
    var n := Decode(data).read;
    var own := data[..n];
    assert own[0] == data[0] && own[1..n] == data[1..n];
  }

  /** A well-formed record at the front is taken whole. */
  lemma TakesRecord(r: Record, rest: Bytes)
    requires RecordOk(r)
    ensures var name := TakeString(RecordBytes(r) + rest);
            && name == Cut(r.name, r.valueLength + r.value + rest)
            && TakeString(name.rest) == Cut(r.value, rest)
  {
    assert RecordBytes(r) + rest == r.nameLength + r.name + (r.valueLength + r.value + rest);
    TakesMeasured(r.nameLength, r.name, r.valueLength + r.value + rest);
    TakesMeasured(r.valueLength, r.value, rest);
  }

  /** On every concatenation of records the parser computes their meaning. */
  lemma {:induction false} ParsesRecords(rs: seq<Record>, o: Fields)
    requires RecordsOk(rs)
    ensures ParseFrom(Wire(rs), o) == if Meaning(rs, o).None? then Thrown else Accepted(Meaning(rs, o).value)
  {
    if rs != [] {
      var r := rs[0];
      assert RecordOk(r);
      TakesRecord(r, Wire(rs[1..]));
      var next := Interpret(o, r.name, r.value);
      if next.Some? { ParsesRecords(rs[1..], next.value); }
      assert |RecordBytes(r)| > 0;
    }
  }

  /** The record at the front of a block. */
  function FirstRecord(data: Bytes): Record
    requires TakeString(data).Cut? && TakeString(TakeString(data).rest).Cut?
  {
    var name := TakeString(data);
    var value := TakeString(name.rest);
    Record(data[..Decode(data).read], name.s, name.rest[..Decode(name.rest).read], value.s)
  }

  lemma FirstRecordOk(data: Bytes)
    requires TakeString(data).Cut? && TakeString(TakeString(data).rest).Cut?
    ensures var r := FirstRecord(data);
            RecordOk(r) && data == RecordBytes(r) + TakeString(TakeString(data).rest).rest
  {
    TakenIsMeasured(data);
    TakenIsMeasured(TakeString(data).rest);
    var r := FirstRecord(data);
    var rest := TakeString(TakeString(data).rest).rest;
    assert r.nameLength + r.name + (r.valueLength + r.value + rest) == RecordBytes(r) + rest;
  }

  /** Whatever the parser accepts is a concatenation of records. */
  lemma {:induction false} AcceptsOnlyRecords(data: Bytes, o: Fields) returns (rs: seq<Record>)
    requires ParseFrom(data, o).Accepted?
    ensures RecordsOk(rs) && Wire(rs) == data && Meaning(rs, o) == Some(ParseFrom(data, o).fields)
    decreases |data|
  {
    if data == [] {
      rs := [];
    } else {
      var r, rest := FirstRecord(data), TakeString(TakeString(data).rest).rest;
      FirstRecordOk(data);
      var tail := AcceptsOnlyRecords(rest, Interpret(o, r.name, r.value).value);
      rs := [r] + tail;
      assert rs[1..] == tail;
    }
  }

  /** A block is accepted, with a given outcome, exactly when it is a concatenation of records with
      that meaning. */
  lemma AcceptsIff(data: Bytes, o: Fields, result: Fields)
    ensures ParseFrom(data, o) == Accepted(result)
            <==> exists rs :: RecordsOk(rs) && Wire(rs) == data && Meaning(rs, o) == Some(result)
  {
    if ParseFrom(data, o) == Accepted(result) {
      var rs := AcceptsOnlyRecords(data, o);
    }
    forall rs | RecordsOk(rs) && Wire(rs) == data && Meaning(rs, o) == Some(result)
      ensures ParseFrom(data, o) == Accepted(result)
    {
      ParsesRecords(rs, o);
    }
  }

  /** The records of a block are determined by its bytes. */
  lemma {:induction false} RecordsUnique(a: seq<Record>, b: seq<Record>)
    requires RecordsOk(a) && RecordsOk(b) && Wire(a) == Wire(b)
    ensures a == b
  {
    if a != [] && b != [] {
      TailOk(a);
      TailOk(b);
      FirstIsRecord(a[0], Wire(a[1..]));
      FirstIsRecord(b[0], Wire(b[1..]));
      RecordsUnique(a[1..], b[1..]);
      assert a == [a[0]] + a[1..] && b == [b[0]] + b[1..];
    } else {
      NonEmptyWire(a);
      NonEmptyWire(b);
    }
  }

  lemma TailOk(rs: seq<Record>)
    requires RecordsOk(rs) && rs != []
    ensures RecordOk(rs[0]) && RecordsOk(rs[1..])
  {
    assert forall i :: 0 <= i < |rs| - 1 ==> rs[1..][i] == rs[i + 1];
  }

  lemma NonEmptyWire(rs: seq<Record>)
    requires RecordsOk(rs)
    ensures rs != [] ==> Wire(rs) != []
  {
    if rs != [] {
      assert RecordOk(rs[0]);
      assert |Wire(rs)| >= |RecordBytes(rs[0])|;
    }
  }

  lemma FirstIsRecord(r: Record, rest: Bytes)
    requires RecordOk(r)
    ensures var data := RecordBytes(r) + rest;
            && TakeString(data).Cut? && TakeString(TakeString(data).rest).Cut?
            && FirstRecord(data) == r && TakeString(TakeString(data).rest).rest == rest
  {
    var tail := r.valueLength + r.value + rest;
    assert RecordBytes(r) + rest == r.nameLength + r.name + tail;
    TakesMeasured(r.nameLength, r.name, tail);
    TakesMeasured(r.valueLength, r.value, rest);
  }

  // ---- a request as records ---------------------------------------------------

  predicate Encodable(s: Bytes) {
    |s| < LIMIT
  }

  function RecordOf(f: Field): Record
    requires Encodable(f.name) && Encodable(f.value)
  {
    Record(Encode(|f.name|), f.name, Encode(|f.value|), f.value)
  }

  predicate EncodableFields(fs: seq<Field>) {
    forall i :: 0 <= i < |fs| ==> Encodable(fs[i].name) && Encodable(fs[i].value)
  }

  function RecordsOf(fs: seq<Field>): (rs: seq<Record>)
    requires EncodableFields(fs)
    ensures |rs| == |fs| && forall i :: 0 <= i < |fs| ==> rs[i] == RecordOf(fs[i])
  {
    seq(|fs|, i requires 0 <= i < |fs| => RecordOf(fs[i]))
  }

  lemma EncodedOk(fs: seq<Field>)
    requires EncodableFields(fs)
    ensures RecordsOk(RecordsOf(fs))
  {
    forall i | 0 <= i < |fs|
      ensures RecordOk(RecordsOf(fs)[i])
    {
      EncodedMeasures(fs[i].name);
      EncodedMeasures(fs[i].value);
    }
  }

  lemma EncodedMeasures(s: Bytes)
    requires Encodable(s)
    ensures Measures(Encode(|s|), s)
  {
    RoundTrip(|s|, []);
    assert Encode(|s|) + [] == Encode(|s|);
  }

  /** The fields a request is sent as. */
  function RequestFields(method_: Bytes, path: Bytes, authority: Bytes, length: nat, fs: seq<Field>): seq<Field> {
    [Field(P_METHOD, method_), Field(P_PATH, path), Field(P_AUTHORITY, authority),
     Field(H1Head.CONTENT_LENGTH, H1Head.ToDecimal(length))] + fs
  }

  predicate Ordinary(fs: seq<Field>) {
    forall i :: 0 <= i < |fs| ==> Regular(fs[i].name) && fs[i].name != H1Head.CONTENT_LENGTH
  }

  function MeaningOf(fs: seq<Field>, o: Fields): Option<Fields> {
    if fs == [] then Some(o)
    else
      match Interpret(o, fs[0].name, fs[0].value)
      case None => None
      case Some(o') => MeaningOf(fs[1..], o')
  }

  lemma {:induction false} MeaningOfRecords(fs: seq<Field>, o: Fields)
    requires EncodableFields(fs)
    ensures Meaning(RecordsOf(fs), o) == MeaningOf(fs, o)
  {
    if fs != [] {
      assert RecordsOf(fs)[1..] == RecordsOf(fs[1..]);
      var next := Interpret(o, fs[0].name, fs[0].value);
      if next.Some? { MeaningOfRecords(fs[1..], next.value); }
    }
  }

  lemma {:induction false} OrdinaryMeaning(fs: seq<Field>, o: Fields)
    requires Ordinary(fs)
    ensures MeaningOf(fs, o) == Some(o.(headers := o.headers + fs))
  {
    if fs == [] {
      assert o.headers + [] == o.headers;
    } else {
      assert Regular(fs[0].name) && fs[0].name != H1Head.CONTENT_LENGTH;
      assert forall i :: 0 <= i < |fs| - 1 ==> fs[1..][i] == fs[i + 1];
      var o' := o.(headers := o.headers + [fs[0]]);
      OrdinaryMeaning(fs[1..], o');
      assert o.headers + [fs[0]] + fs[1..] == o.headers + fs;
    }
  }

  lemma NumberOf(n: nat)
    requires n <= SIZE_MAX
    ensures Number(H1Head.ToDecimal(n)) == Some(n)
  {
    H1HeadProofs.DigitsOf(H1Head.ToDecimal(n), []);
    assert H1Head.ToDecimal(n) + [] == H1Head.ToDecimal(n);
    H1HeadProofs.DecimalOf(n);
  }

  lemma MeaningFirst(f: Field, rest: seq<Field>, o: Fields, o': Fields)
    requires Interpret(o, f.name, f.value) == Some(o')
    ensures MeaningOf([f] + rest, o) == MeaningOf(rest, o')
  {
    assert ([f] + rest)[1..] == rest;
  }

  const NOTHING := Fields([], [], [], None)

  lemma RequestMeaning(method_: Bytes, path: Bytes, authority: Bytes, length: nat, fs: seq<Field>)
    requires length <= SIZE_MAX && Ordinary(fs)
    ensures MeaningOf(RequestFields(method_, path, authority, length, fs), NOTHING) ==
            Some(Fields(method_, path, [Field(H1Head.HOST, authority)] + fs, Some(length)))
  {
    var f1, f2 := Field(P_METHOD, method_), Field(P_PATH, path);
    var f3, f4 := Field(P_AUTHORITY, authority), Field(H1Head.CONTENT_LENGTH, H1Head.ToDecimal(length));
    var o1 := NOTHING.(method_ := method_);
    var o2 := o1.(path := path);
    var o3 := o2.(headers := [] + [Field(H1Head.HOST, authority)]);
    var o4 := o3.(contentLength := Some(length));
    NumberOf(length);
    assert RequestFields(method_, path, authority, length, fs) == [f1] + ([f2] + ([f3] + ([f4] + fs)));
    MeaningFirst(f1, [f2] + ([f3] + ([f4] + fs)), NOTHING, o1);
    MeaningFirst(f2, [f3] + ([f4] + fs), o1, o2);
    MeaningFirst(f3, [f4] + fs, o2, o3);
    MeaningFirst(f4, fs, o3, o4);
    OrdinaryMeaning(fs, o4);
    assert o4.headers + fs == [Field(H1Head.HOST, authority)] + fs;
  }

  /** A request sent as literal records is read back: method, path, length, the authority as host
      and the other fields in order. */
  lemma ParsesRequest(method_: Bytes, path: Bytes, authority: Bytes, length: nat, fs: seq<Field>)
    requires length <= SIZE_MAX && Ordinary(fs)
    requires EncodableFields(RequestFields(method_, path, authority, length, fs))
    ensures ParseFrom(Wire(RecordsOf(RequestFields(method_, path, authority, length, fs))), NOTHING) ==
            Accepted(Fields(method_, path, [Field(H1Head.HOST, authority)] + fs, Some(length)))
  {
    var all := RequestFields(method_, path, authority, length, fs);
    EncodedOk(all);
    ParsesRecords(RecordsOf(all), NOTHING);
    MeaningOfRecords(all, NOTHING);
    RequestMeaning(method_, path, authority, length, fs);
  }

  // ---- the loop ---------------------------------------------------------------

  /** The check `pos + length > size` in 64-bit arithmetic. */
  predicate Overruns(pos: nat, length: nat, size: nat) {
    (pos + length) % WORD > size
  }

  /** Lengths stay below 2^62, so the 64-bit sum never wraps on a buffer that can exist. */
  lemma NeverWraps(data: Bytes, pos: nat, size: nat)
    requires pos <= size <= WORD / 2
    ensures Overruns(pos, Decode(data).value, size) <==> pos + Decode(data).value > size
  {
    DecodeBound(data);
  }

  /** A string at `pos`. */
  method ReadString(data: Bytes, pos: nat) returns (ok: bool, s: Bytes, next: nat)
    requires pos <= |data| <= WORD / 2
    ensures ok <==> TakeString(data[pos..]).Cut?
    ensures ok ==> next <= |data| && TakeString(data[pos..]) == Cut(s, data[next..])
  {
    var d := Decode(data[pos..]);
    if d.read == 0 {
      return false, [], pos;
    }
    var start := pos + d.read;
    NeverWraps(data[pos..], start, |data|);
    if Overruns(start, d.value, |data|) {
      return false, [], pos;
    }
    assert data[pos..][d.read..d.read + d.value] == data[start..start + d.value];
    return true, data[start..start + d.value], start + d.value;
  }

  method ParseRequestHeaders(data: Bytes, init: Fields) returns (r: Outcome)
    requires |data| <= WORD / 2
    ensures r == ParseFrom(data, init)
  {
    var pos, o := 0, init;
    while pos < |data|
      invariant pos <= |data| && ParseFrom(data[pos..], o) == ParseFrom(data, init)
    {
      var ok, name, value;
      ok, name, pos := ReadString(data, pos);
      if !ok {
        return Malformed;
      }
      ok, value, pos := ReadString(data, pos);
      if !ok {
        return Malformed;
      }
      var next := Interpret(o, name, value);
      if next.None? {
        return Thrown;
      }
      o := next.value;
    }
    return Accepted(o);
  }

  // ---- what the names mean ----------------------------------------------------

  /** The four names with a meaning of their own; other pseudo-names and the empty name have none. */
  lemma NamesMean(o: Fields, name: Bytes, value: Bytes)
    ensures Interpret(o, Ascii(":method"), value) == Some(o.(method_ := value))
    ensures Interpret(o, Ascii(":path"), value) == Some(o.(path := value))
    ensures Interpret(o, Ascii(":authority"), value) == Some(o.(headers := o.headers + [Field(Ascii("host"), value)]))
    ensures name != Ascii(":method") && name != Ascii(":path") && name != Ascii(":authority")
            && name != Ascii("content-length") ==>
              Interpret(o, name, value) ==
                Some(if name == [] || name[0] == ':' as int then o else o.(headers := o.headers + [Field(name, value)]))
  {
    assert P_METHOD == Ascii(":method") && P_PATH == Ascii(":path") && P_AUTHORITY == Ascii(":authority");
    assert H1Head.CONTENT_LENGTH == Ascii("content-length") && H1Head.HOST == Ascii("host");
  }

  /** A content length is the number its value begins with, below 2^64, and otherwise an exception. */
  lemma LengthMeans(o: Fields, n: nat, rest: Bytes)
    requires rest == [] || !(48 <= rest[0] <= 57)
    ensures Interpret(o, Ascii("content-length"), H1Head.ToDecimal(n) + rest) ==
            if n < 0x1_0000_0000_0000_0000 then Some(o.(contentLength := Some(n))) else None
    ensures Interpret(o, Ascii("content-length"), rest) == None
  {
    assert P_METHOD[0] == 58 && P_PATH[0] == 58 && P_AUTHORITY[0] == 58;
    assert H1Head.CONTENT_LENGTH == Ascii("content-length");
    H1HeadProofs.DigitsOf(H1Head.ToDecimal(n), rest);
    H1HeadProofs.DecimalOf(n);
  }
}
