/** Message heads as HTTP/3 header lists (sections 4.2 and 4.3 of RFC 9114). */
module H3Headers {
  import opened Common
  import opened Headers
  import opened H1Head
  import H1HeadProofs

  const GET: Bytes := [71, 69, 84]                                                  // GET
  const HTTP3: Bytes := [72, 84, 84, 80, 47, 51]                                    // HTTP/3
  const PROXY_CONNECTION: Bytes :=
    [112, 114, 111, 120, 121, 45, 99, 111, 110, 110, 101, 99, 116, 105, 111, 110]   // proxy-connection
  const UPGRADE: Bytes := [117, 112, 103, 114, 97, 100, 101]                        // upgrade

  predicate IsHopByHop(name: Bytes) {
    Lower(name) in {CONNECTION, KEEP_ALIVE, PROXY_CONNECTION, TRANSFER_ENCODING, UPGRADE}
  }

  // ---- writing ----------------------------------------------------------------

  function Or(a: Bytes, b: Bytes): Bytes {
    if a == [] then b else a
  }

  function Stripped(fs: seq<Field>): seq<Field> {
    if fs == [] then []
    else (if IsHopByHop(fs[0].name) then [] else [fs[0]]) + Stripped(fs[1..])
  }

  function AuthorityOf(h: Head): Bytes {
    if h.authority == [] && Get(h.headers, HOST).Some? then Get(h.headers, HOST).value else h.authority
  }

  function RequestList(h: Head): seq<Field> {
    [Field(P_METHOD, Or(h.method_, GET)), Field(P_SCHEME, Or(h.scheme, HTTP)),
     Field(P_AUTHORITY, AuthorityOf(h)), Field(P_PATH, Or(h.path, [SLASH]))] + Stripped(h.headers)
  }

  function ResponseList(r: Response): seq<Field> {
    [Field(P_STATUS, ToDecimal(r.status))] + Stripped(r.headers)
  }

  // ---- sending ----------------------------------------------------------------

  const MAX_HEADER_BLOCK := 65536

  /** The size of a header block, as the transport counts it. */
  function BlockSize(fs: seq<Field>): nat {
    if fs == [] then 0 else |fs[0].name| + |fs[0].value| + BlockSize(fs[1..])
  }

  function Lowered(f: Field): Field {
    Field(Lower(f.name), f.value)
  }

  function LowerNames(fs: seq<Field>): (ls: seq<Field>)
    ensures |ls| == |fs| && forall i :: 0 <= i < |fs| ==> ls[i] == Lowered(fs[i])
  {
    if fs == [] then [] else [Lowered(fs[0])] + LowerNames(fs[1..])
  }

  /** The list the peer gets: names in lower case; nothing if the block is too large. */
  function Send(fs: seq<Field>): Option<seq<Field>> {
    if BlockSize(fs) > MAX_HEADER_BLOCK then None else Some(LowerNames(fs))
  }

  // ---- reading ----------------------------------------------------------------

  const BLANK := Head([], [], HTTP3, [], [], false, [], None)

  function SetField(fs: seq<Field>, name: Bytes, value: Bytes): seq<Field> {
    Remove(fs, name) + [Field(name, value)]
  }

  function AddField(h: Head, f: Field): Head {
    if f.name == P_METHOD then h.(method_ := f.value)
    else if f.name == P_PATH then h.(path := f.value)
    else if f.name == P_SCHEME then h.(scheme := f.value)
    else if f.name == P_AUTHORITY then h.(authority := f.value, headers := SetField(h.headers, HOST, f.value))
    else if !Regular(f.name) then h
    else h.(headers := h.headers + [f])
  }

  function AddFields(h: Head, fs: seq<Field>): Head
    decreases |fs|
  {
    if fs == [] then h else AddFields(AddField(h, fs[0]), fs[1..])
  }

  function ReadRequestList(fs: seq<Field>): Head {
    var h := AddFields(BLANK, fs);
    h.(contentLength := LengthOf(h.headers))
  }

  const NO_RESPONSE := Response(0, [], HTTP3, [], None)

  /** The status is read as strtol reads it, for values that fit an int. */
  function AddResponseField(r: Response, f: Field): Response {
    if f.name == P_STATUS then r.(status := DecimalValue(Digits(f.value)))
    else if !Regular(f.name) then r
    else r.(headers := r.headers + [f])
  }

  function AddResponseFields(r: Response, fs: seq<Field>): Response
    decreases |fs|
  {
    if fs == [] then r else AddResponseFields(AddResponseField(r, fs[0]), fs[1..])
  }

  function ReadResponseList(fs: seq<Field>): Response {
    var r := AddResponseFields(NO_RESPONSE, fs);
    r.(contentLength := LengthOf(r.headers))
  }

  // ---- names ------------------------------------------------------------------

  const HOP_BY_HOP := ["connection", "keep-alive", "proxy-connection", "transfer-encoding", "upgrade"]

  function HopName(i: nat): Bytes
    requires i < 5
  {
    Ascii(HOP_BY_HOP[i])
  }

  lemma HopNames(name: Bytes)
    ensures IsHopByHop(name) <==> exists i :: 0 <= i < 5 && Lower(name) == HopName(i)
  {
    assert CONNECTION == HopName(0) && KEEP_ALIVE == HopName(1) && PROXY_CONNECTION == HopName(2);
    assert TRANSFER_ENCODING == HopName(3) && UPGRADE == HopName(4);
  }

  lemma PseudoNames()
    ensures P_METHOD == Ascii(":method") && P_SCHEME == Ascii(":scheme") && P_AUTHORITY == Ascii(":authority")
    ensures P_PATH == Ascii(":path") && P_STATUS == Ascii(":status")
    ensures GET == Ascii("GET") && HTTP3 == Ascii("HTTP/3") && HTTP == Ascii("http") && [SLASH] == Ascii("/")
  {
  }

  /** A list that is sent has no field with one of the five names, in whatever case, and every other field
      that it had, in order. */
  lemma {:induction false} StripsHopByHop(fs: seq<Field>, name: Bytes)
    ensures GetAll(Stripped(fs), name) ==
              if exists i :: 0 <= i < 5 && Lower(name) == HopName(i) then [] else GetAll(fs, name)
  {
    HopNames(name);
    if fs != [] {
      StripsHopByHop(fs[1..], name);
      SameNameSameKind(fs[0].name, name);
      var first := if IsHopByHop(fs[0].name) then [] else [fs[0]];
      GetAllConcat(first, Stripped(fs[1..]), name);
      assert GetAll([fs[0]], name) == if SameName(fs[0].name, name) then [fs[0].value] else [];
    }
  }

  /** What a request is sent with where it has nothing of its own: GET, http, the first Host field and the
      root path. */
  lemma RequestListForm(h: Head)
    ensures var list := RequestList(h);
            && |list| >= 4
            && list[0] == Field(Ascii(":method"), if h.method_ == [] then Ascii("GET") else h.method_)
            && list[1] == Field(Ascii(":scheme"), if h.scheme == [] then Ascii("http") else h.scheme)
            && list[2].name == Ascii(":authority") && list[3].name == Ascii(":path")
            && list[3].value == (if h.path == [] then Ascii("/") else h.path)
            && (h.authority != [] ==> list[2].value == h.authority)
            && (h.authority == [] ==>
                  list[2].value == match Get(h.headers, Ascii("host")) case None => [] case Some(v) => v)
            && list[4..] == Stripped(h.headers)
  {
    PseudoNames();
    assert HOST == Ascii("host");
  }

  /** A header block may have 64 kilobytes. */
  lemma SendIff(fs: seq<Field>)
    ensures Send(fs) == None <==> BlockSize(fs) > 64 * 1024
  {
  }

  // ---- what survives ----------------------------------------------------------

  /** The fields that cross: neither hop-by-hop nor pseudo. */
  function EndToEnd(fs: seq<Field>): seq<Field> {
    if fs == [] then []
    else (if IsHopByHop(fs[0].name) || !Regular(fs[0].name) then [] else [fs[0]]) + EndToEnd(fs[1..])
  }

  predicate NoPseudo(fs: seq<Field>) {
    forall i :: 0 <= i < |fs| ==> fs[i].name == [] || Regular(fs[i].name)
  }

  /** What one field adds. */
  function Kept(f: Field): seq<Field> {
    if Regular(f.name) then [f] else []
  }

  lemma Adds(h: Head, r: Response, f: Field)
    requires f.name == [] || Regular(f.name)
    ensures AddField(h, f) == h.(headers := h.headers + Kept(f))
    ensures AddResponseField(r, f) == r.(headers := r.headers + Kept(f))
  {
    assert h.headers + [] == h.headers && r.headers + [] == r.headers;
  }

  lemma Unfold(fs: seq<Field>)
    requires NoPseudo(fs) && fs != []
    ensures NoPseudo(fs[1..])
    ensures Stripped(fs) == (if IsHopByHop(fs[0].name) then [] else [fs[0]]) + Stripped(fs[1..])
    ensures EndToEnd(fs) == (if IsHopByHop(fs[0].name) then [] else Kept(fs[0])) + EndToEnd(fs[1..])
  {
    assert forall i :: 0 <= i < |fs| - 1 ==> fs[1..][i] == fs[i + 1];
  }

  lemma Regroup(a: seq<Field>, b: seq<Field>, c: seq<Field>)
    ensures a + b + c == a + (b + c)
  {
  }

  lemma {:induction false} AddsRegular(h: Head, fs: seq<Field>)
    requires NoPseudo(fs)
    ensures AddFields(h, Stripped(fs)) == h.(headers := h.headers + EndToEnd(fs))
    decreases |fs|
  {
    if fs == [] {
      assert h.headers + [] == h.headers;
    } else {
      var f, rest := fs[0], fs[1..];
      Unfold(fs);
      if IsHopByHop(f.name) {
        assert Stripped(fs) == Stripped(rest) && EndToEnd(fs) == EndToEnd(rest);
        AddsRegular(h, rest);
      } else {
        Adds(h, NO_RESPONSE, f);
        AddsRegular(AddField(h, f), rest);
        AddsFirst(h, f, Stripped(rest));
        Regroup(h.headers, Kept(f), EndToEnd(rest));
      }
    }
  }

  lemma AddsFirst(h: Head, f: Field, rest: seq<Field>)
    ensures AddFields(h, [f] + rest) == AddFields(AddField(h, f), rest)
  {
    assert ([f] + rest)[1..] == rest;
  }

  /** The head a request list gives when its regular fields are `fs`. */
  function Crossed(h: Head, fs: seq<Field>): Head {
    var hs := [Field(HOST, AuthorityOf(h))] + EndToEnd(fs);
    Head(Or(h.method_, GET), Or(h.path, [SLASH]), HTTP3, Or(h.scheme, HTTP), AuthorityOf(h), false, hs, LengthOf(hs))
  }

  /** The head after the four pseudo-fields. */
  function Opened(h: Head): Head {
    BLANK.(method_ := Or(h.method_, GET), scheme := Or(h.scheme, HTTP), authority := AuthorityOf(h),
           path := Or(h.path, [SLASH]), headers := [Field(HOST, AuthorityOf(h))])
  }

  lemma PseudoAdds(h: Head)
    ensures AddField(AddField(AddField(AddField(BLANK, Field(P_METHOD, Or(h.method_, GET))),
                                       Field(P_SCHEME, Or(h.scheme, HTTP))),
                              Field(P_AUTHORITY, AuthorityOf(h))),
                     Field(P_PATH, Or(h.path, [SLASH]))) == Opened(h)
  {
    assert SetField([], HOST, AuthorityOf(h)) == [Field(HOST, AuthorityOf(h))];
  }

  lemma FourAdd(h: Head, f1: Field, f2: Field, f3: Field, f4: Field, rest: seq<Field>)
    ensures AddFields(h, [f1, f2, f3, f4] + rest) ==
            AddFields(AddField(AddField(AddField(AddField(h, f1), f2), f3), f4), rest)
  {
    assert [f1, f2, f3, f4] + rest == [f1] + ([f2] + ([f3] + ([f4] + rest)));
    var h1 := AddField(h, f1);
    var h2 := AddField(h1, f2);
    var h3 := AddField(h2, f3);
    AddsFirst(h, f1, [f2] + ([f3] + ([f4] + rest)));
    AddsFirst(h1, f2, [f3] + ([f4] + rest));
    AddsFirst(h2, f3, [f4] + rest);
    AddsFirst(h3, f4, rest);
  }

  lemma RequestReadsBack(h: Head)
    requires NoPseudo(h.headers)
    ensures ReadRequestList(RequestList(h)) == Crossed(h, h.headers)
  {
    FourAdd(BLANK, Field(P_METHOD, Or(h.method_, GET)), Field(P_SCHEME, Or(h.scheme, HTTP)),
            Field(P_AUTHORITY, AuthorityOf(h)), Field(P_PATH, Or(h.path, [SLASH])), Stripped(h.headers));
    PseudoAdds(h);
    AddsRegular(Opened(h), h.headers);
  }

  lemma {:induction false} AddsLast(h: Head, fs: seq<Field>, f: Field)
    ensures AddFields(h, fs + [f]) == AddField(AddFields(h, fs), f)
    decreases |fs|
  {
    if fs == [] {
      assert fs + [f] == [f] && [f][1..] == [];
    } else {
      assert (fs + [f])[0] == fs[0] && (fs + [f])[1..] == fs[1..] + [f];
      AddsLast(AddField(h, fs[0]), fs[1..], f);
    }
  }

  /** An authority is the host from then on, in place of every host field before it. */
  lemma AuthorityReplacesHost(fs: seq<Field>, v: Bytes, name: Bytes)
    ensures var h, h' := AddFields(BLANK, fs), AddFields(BLANK, fs + [Field(P_AUTHORITY, v)]);
            && h'.authority == v && h'.method_ == h.method_ && h'.path == h.path && h'.scheme == h.scheme
            && GetAll(h'.headers, name) == if SameName(HOST, name) then [v] else GetAll(h.headers, name)
  {
    AddsLast(BLANK, fs, Field(P_AUTHORITY, v));
    SetReplaces(AddFields(BLANK, fs).headers, HOST, v, name);
  }

  lemma {:induction false} EndToEndLookup(fs: seq<Field>, name: Bytes)
    ensures GetAll(EndToEnd(fs), name) == if IsHopByHop(name) || !Regular(name) then [] else GetAll(fs, name)
  {
    if fs != [] {
      EndToEndLookup(fs[1..], name);
      SameNameSameKind(fs[0].name, name);
      var first := if IsHopByHop(fs[0].name) || !Regular(fs[0].name) then [] else [fs[0]];
      GetAllConcat(first, EndToEnd(fs[1..]), name);
      assert GetAll([fs[0]], name) == if SameName(fs[0].name, name) then [fs[0].value] else [];
    }
  }

  lemma SameNameSameKind(a: Bytes, b: Bytes)
    ensures SameName(a, b) ==> (IsHopByHop(a) <==> IsHopByHop(b)) && (Regular(a) <==> Regular(b))
  {
    if SameName(a, b) && a != [] {
      assert Lower(a)[0] == Lower(b)[0];
    }
  }

  // ---- lower case -------------------------------------------------------------

  lemma LowerTwice(s: Bytes)
    ensures Lower(Lower(s)) == Lower(s)
  {
  }

  lemma LowerKeepsKind(name: Bytes)
    ensures IsHopByHop(Lower(name)) == IsHopByHop(name) && Regular(Lower(name)) == Regular(name)
  {
    LowerTwice(name);
  }

  lemma {:induction false} LowerKeepsLookup(fs: seq<Field>, name: Bytes)
    ensures GetAll(LowerNames(fs), name) == GetAll(fs, name)
  {
    if fs != [] {
      LowerTwice(fs[0].name);
      LowerKeepsLookup(fs[1..], name);
      assert LowerNames(fs)[1..] == LowerNames(fs[1..]);
    }
  }

  lemma {:induction false} LowerStripped(fs: seq<Field>)
    ensures LowerNames(Stripped(fs)) == Stripped(LowerNames(fs))
  {
    if fs != [] {
      LowerKeepsKind(fs[0].name);
      LowerStripped(fs[1..]);
      assert LowerNames(fs)[1..] == LowerNames(fs[1..]);
      assert ([fs[0]] + Stripped(fs[1..]))[1..] == Stripped(fs[1..]);
    }
  }

  lemma {:induction false} LowerEndToEnd(fs: seq<Field>)
    ensures LowerNames(EndToEnd(fs)) == EndToEnd(LowerNames(fs))
  {
    if fs != [] {
      LowerKeepsKind(fs[0].name);
      LowerEndToEnd(fs[1..]);
      assert LowerNames(fs)[1..] == LowerNames(fs[1..]);
      assert ([fs[0]] + EndToEnd(fs[1..]))[1..] == EndToEnd(fs[1..]);
    }
  }

  lemma LowerNoPseudo(fs: seq<Field>)
    requires NoPseudo(fs)
    ensures NoPseudo(LowerNames(fs))
  {
    forall i | 0 <= i < |fs|
      ensures Lower(fs[i].name) == [] || Regular(Lower(fs[i].name))
    {
      LowerKeepsKind(fs[i].name);
    }
  }

  lemma {:induction false} LowerConcat(a: seq<Field>, b: seq<Field>)
    ensures LowerNames(a + b) == LowerNames(a) + LowerNames(b)
  {
  }

  lemma PseudoNamesAreLower()
    ensures Lower(P_METHOD) == P_METHOD && Lower(P_SCHEME) == P_SCHEME && Lower(P_AUTHORITY) == P_AUTHORITY
    ensures Lower(P_PATH) == P_PATH && Lower(P_STATUS) == P_STATUS
  {
  }

  /** A request with its field names in lower case. */
  function LowerHead(h: Head): Head {
    h.(headers := LowerNames(h.headers))
  }

  lemma LowerAuthority(h: Head)
    ensures AuthorityOf(LowerHead(h)) == AuthorityOf(h)
  {
    LowerKeepsLookup(h.headers, HOST);
    GetIsFirst(h.headers, HOST);
    GetIsFirst(LowerNames(h.headers), HOST);
  }

  /** Lowering the list of a request is listing the lowered request. */
  lemma LowerRequestList(h: Head)
    ensures LowerNames(RequestList(h)) == RequestList(LowerHead(h))
  {
    var pseudo := [Field(P_METHOD, Or(h.method_, GET)), Field(P_SCHEME, Or(h.scheme, HTTP)),
                   Field(P_AUTHORITY, AuthorityOf(h)), Field(P_PATH, Or(h.path, [SLASH]))];
    PseudoNamesAreLower();
    LowerAuthority(h);
    LowerStripped(h.headers);
    LowerConcat(pseudo, Stripped(h.headers));
    assert LowerNames(pseudo) == pseudo;
  }

  // ---- crossing a connection --------------------------------------------------

  /** Sending a request and reading it at the other end: the pseudo-fields survive, the authority
      comes first as host, and the end-to-end fields follow in order, with lower-case names. */
  lemma RequestSurvives(h: Head)
    requires NoPseudo(h.headers)
    ensures match Send(RequestList(h))
            case None => BlockSize(RequestList(h)) > MAX_HEADER_BLOCK
            case Some(list) => ReadRequestList(list) == Crossed(h, LowerNames(h.headers))
  {
    LowerRequestList(h);
    LowerAuthority(h);
    LowerNoPseudo(h.headers);
    RequestReadsBack(LowerHead(h));
  }

  /** The lookups of the head that crossed. */
  lemma CrossedLookup(h: Head, fs: seq<Field>, name: Bytes)
    requires Regular(name)
    ensures GetAll(Crossed(h, fs).headers, name) ==
              if IsHopByHop(name) then []
              else if SameName(name, HOST) then [AuthorityOf(h)] + GetAll(fs, name)
              else GetAll(fs, name)
  {
    EndToEndLookup(fs, name);
    var host := [Field(HOST, AuthorityOf(h))];
    GetAllConcat(host, EndToEnd(fs), name);
    assert GetAll(host, name) == if SameName(HOST, name) then [AuthorityOf(h)] else [];
    HostIsEndToEnd(name);
  }

  /** After the crossing no hop-by-hop name is found; host gives the authority first; every other
      regular name, in whatever case, gives the values it gave before, in order. */
  lemma LookupSurvives(h: Head, name: Bytes)
    requires NoPseudo(h.headers) && Regular(name) && BlockSize(RequestList(h)) <= MAX_HEADER_BLOCK
    ensures GetAll(ReadRequestList(Send(RequestList(h)).value).headers, name) ==
              if IsHopByHop(name) then []
              else if SameName(name, HOST) then [AuthorityOf(h)] + GetAll(h.headers, name)
              else GetAll(h.headers, name)
  {
    RequestSurvives(h);
    CrossedLookup(h, LowerNames(h.headers), name);
    LowerKeepsLookup(h.headers, name);
  }

  lemma HostIsEndToEnd(name: Bytes)
    ensures SameName(name, HOST) ==> !IsHopByHop(name)
    ensures !IsHopByHop(CONTENT_LENGTH) && Regular(CONTENT_LENGTH) && !SameName(CONTENT_LENGTH, HOST)
  {
    assert |Lower(name)| == |name| && |HOST| == 4;
    assert Lower(CONTENT_LENGTH)[3] == 116 && |Lower(CONTENT_LENGTH)| == 14;
  }

  /** The content length is the one the fields announced. */
  lemma LengthSurvives(h: Head)
    requires NoPseudo(h.headers) && h.contentLength == LengthOf(h.headers)
    requires BlockSize(RequestList(h)) <= MAX_HEADER_BLOCK
    ensures ReadRequestList(Send(RequestList(h)).value).contentLength == h.contentLength
  {
    RequestSurvives(h);
    HostIsEndToEnd(CONTENT_LENGTH);
    LookupSurvives(h, CONTENT_LENGTH);
    GetIsFirst(Crossed(h, LowerNames(h.headers)).headers, CONTENT_LENGTH);
    GetIsFirst(h.headers, CONTENT_LENGTH);
  }

  lemma {:induction false} AddsRegularToResponse(r: Response, fs: seq<Field>)
    requires NoPseudo(fs)
    ensures AddResponseFields(r, Stripped(fs)) == r.(headers := r.headers + EndToEnd(fs))
    decreases |fs|
  {
    if fs == [] {
      assert r.headers + [] == r.headers;
    } else {
      var f, rest := fs[0], fs[1..];
      Unfold(fs);
      if IsHopByHop(f.name) {
        assert Stripped(fs) == Stripped(rest) && EndToEnd(fs) == EndToEnd(rest);
        AddsRegularToResponse(r, rest);
      } else {
        Adds(BLANK, r, f);
        AddsRegularToResponse(AddResponseField(r, f), rest);
        AddsFirstToResponse(r, f, Stripped(rest));
        Regroup(r.headers, Kept(f), EndToEnd(rest));
      }
    }
  }

  lemma AddsFirstToResponse(r: Response, f: Field, rest: seq<Field>)
    ensures AddResponseFields(r, [f] + rest) == AddResponseFields(AddResponseField(r, f), rest)
  {
    assert ([f] + rest)[1..] == rest;
  }

  lemma StatusSurvives(n: nat)
    ensures DecimalValue(Digits(ToDecimal(n))) == n
  {
    H1HeadProofs.DigitsOf(ToDecimal(n), []);
    assert ToDecimal(n) + [] == ToDecimal(n);
    H1HeadProofs.DecimalOf(n);
  }

  lemma ResponseReadsBack(r: Response)
    requires NoPseudo(r.headers)
    ensures ReadResponseList(ResponseList(r)) ==
            Response(r.status, [], HTTP3, EndToEnd(r.headers), LengthOf(EndToEnd(r.headers)))
  {
    var first := Field(P_STATUS, ToDecimal(r.status));
    StatusSurvives(r.status);
    AddsFirstToResponse(NO_RESPONSE, first, Stripped(r.headers));
    AddsRegularToResponse(AddResponseField(NO_RESPONSE, first), r.headers);
    assert [] + EndToEnd(r.headers) == EndToEnd(r.headers);
  }

  lemma LowerResponseList(r: Response)
    ensures LowerNames(ResponseList(r)) == ResponseList(r.(headers := LowerNames(r.headers)))
  {
    var status := [Field(P_STATUS, ToDecimal(r.status))];
    PseudoNamesAreLower();
    LowerStripped(r.headers);
    LowerConcat(status, Stripped(r.headers));
    assert LowerNames(status) == status;
  }

  /** A response keeps its status and its end-to-end fields; it has no reason in HTTP/3. */
  lemma ResponseSurvives(r: Response)
    requires NoPseudo(r.headers)
    ensures var fs := LowerNames(EndToEnd(r.headers));
            match Send(ResponseList(r))
            case None => BlockSize(ResponseList(r)) > MAX_HEADER_BLOCK
            case Some(list) => ReadResponseList(list) == Response(r.status, [], HTTP3, fs, LengthOf(fs))
  {
    LowerResponseList(r);
    LowerNoPseudo(r.headers);
    LowerEndToEnd(r.headers);
    ResponseReadsBack(r.(headers := LowerNames(r.headers)));
  }

  // ---- the loops --------------------------------------------------------------

  method StripHopByHop(fs: seq<Field>) returns (out: seq<Field>)
    ensures out == Stripped(fs)
  {
    out := [];
    for i := 0 to |fs|
      invariant out + Stripped(fs[i..]) == Stripped(fs)
    {
      assert fs[i..][1..] == fs[i + 1..];
      if !IsHopByHop(fs[i].name) {
        assert out + ([fs[i]] + Stripped(fs[i + 1..])) == out + [fs[i]] + Stripped(fs[i + 1..]);
        out := out + [fs[i]];
      }
    }
    assert fs[|fs|..] == [];
  }

  method BuildRequestList(h: Head) returns (list: seq<Field>)
    ensures list == RequestList(h)
  {
    var authority := h.authority;
    if authority == [] {
      var host := Get(h.headers, HOST);
      authority := if host.Some? then host.value else [];
    }
    var regular := StripHopByHop(h.headers);
    return [Field(P_METHOD, Or(h.method_, GET)), Field(P_SCHEME, Or(h.scheme, HTTP)),
            Field(P_AUTHORITY, authority), Field(P_PATH, Or(h.path, [SLASH]))] + regular;
  }

  method RequestHeadFromHeaders(raw: seq<Field>) returns (head: Head)
    ensures head == ReadRequestList(raw)
  {
    head := BLANK;
    for i := 0 to |raw|
      invariant AddFields(head, raw[i..]) == AddFields(BLANK, raw)
    {
      assert raw[i..][1..] == raw[i + 1..];
      head := AddField(head, raw[i]);
    }
    assert raw[|raw|..] == [];
    head := head.(contentLength := LengthOf(head.headers));
  }

  method ResponseHeadFromHeaders(raw: seq<Field>) returns (head: Response)
    ensures head == ReadResponseList(raw)
  {
    head := NO_RESPONSE;
    for i := 0 to |raw|
      invariant AddResponseFields(head, raw[i..]) == AddResponseFields(NO_RESPONSE, raw)
    {
      assert raw[i..][1..] == raw[i + 1..];
      head := AddResponseField(head, raw[i]);
    }
    assert raw[|raw|..] == [];
    head := head.(contentLength := LengthOf(head.headers));
  }

  /** Adds up the block, refuses it when it is too large, and lowers the names. */
  method SendHeaders(fs: seq<Field>) returns (sent: Option<seq<Field>>)
    ensures sent == Send(fs)
  {
    var total := 0;
    for i := 0 to |fs|
      invariant total + BlockSize(fs[i..]) == BlockSize(fs)
    {
      assert fs[i..][1..] == fs[i + 1..];
      total := total + |fs[i].name| + |fs[i].value|;
    }
    assert fs[|fs|..] == [];
    if total > MAX_HEADER_BLOCK {
      return None;
    }
    var list: seq<Field> := [];
    for i := 0 to |fs|
      invariant |list| == i && forall j :: 0 <= j < i ==> list[j] == Lowered(fs[j])
    {
      list := list + [Field(Lower(fs[i].name), fs[i].value)];
    }
    assert list == LowerNames(fs);
    return Some(list);
  }
}
