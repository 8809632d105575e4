/** Ordered header fields with case-insensitive names. */
module Headers {
  import opened Common

  datatype Field = Field(name: Bytes, value: Bytes)

  const COLON: byte := 58
  const TRANSFER_ENCODING: Bytes :=
    [116, 114, 97, 110, 115, 102, 101, 114, 45, 101, 110, 99, 111, 100, 105, 110, 103]  // transfer-encoding
  const P_METHOD: Bytes := [58, 109, 101, 116, 104, 111, 100]                       // :method
  const P_SCHEME: Bytes := [58, 115, 99, 104, 101, 109, 101]                        // :scheme
  const P_AUTHORITY: Bytes := [58, 97, 117, 116, 104, 111, 114, 105, 116, 121]      // :authority
  const P_PATH: Bytes := [58, 112, 97, 116, 104]                                    // :path
  const P_STATUS: Bytes := [58, 115, 116, 97, 116, 117, 115]                        // :status

  /** A name that is neither empty nor a pseudo-header. */
  predicate Regular(name: Bytes) {
    name != [] && name[0] != COLON
  }

  function LowerByte(b: byte): byte {
    if 65 <= b <= 90 then b + 32 else b
  }

  function Lower(s: Bytes): (t: Bytes)
    ensures |t| == |s| && forall i :: 0 <= i < |s| ==> t[i] == LowerByte(s[i])
  {
    seq(|s|, i requires 0 <= i < |s| => LowerByte(s[i]))
  }

  predicate SameName(a: Bytes, b: Bytes) {
    Lower(a) == Lower(b)
  }

  /** All values for a name, in order. */
  function GetAll(fields: seq<Field>, name: Bytes): seq<Bytes> {
    if fields == [] then []
    else (if SameName(fields[0].name, name) then [fields[0].value] else []) + GetAll(fields[1..], name)
  }

  function Get(fields: seq<Field>, name: Bytes): Option<Bytes> {
    if fields == [] then None
    else if SameName(fields[0].name, name) then Some(fields[0].value)
    else Get(fields[1..], name)
  }

  function Remove(fields: seq<Field>, name: Bytes): seq<Field> {
    if fields == [] then []
    else (if SameName(fields[0].name, name) then [] else [fields[0]]) + Remove(fields[1..], name)
  }

  /** `Get` is the first of `GetAll`. */
  lemma {:induction false} GetIsFirst(fields: seq<Field>, name: Bytes)
    ensures Get(fields, name) == if GetAll(fields, name) == [] then None else Some(GetAll(fields, name)[0])
  {
    if fields != [] { GetIsFirst(fields[1..], name); }
  }

  lemma {:induction false} GetAllConcat(a: seq<Field>, b: seq<Field>, name: Bytes)
    ensures GetAll(a + b, name) == GetAll(a, name) + GetAll(b, name)
  {
    if a == [] {
      assert a + b == b;
    } else {
      assert (a + b)[1..] == a[1..] + b;
      GetAllConcat(a[1..], b, name);
    }
  }

  /** Removing a name hides it and nothing else. */
  lemma {:induction false} RemoveHides(fields: seq<Field>, name: Bytes, other: Bytes)
    ensures GetAll(Remove(fields, name), other) == if SameName(name, other) then [] else GetAll(fields, other)
  {
    if fields != [] {
      RemoveHides(fields[1..], name, other);
      var first := if SameName(fields[0].name, name) then [] else [fields[0]];
      GetAllConcat(first, Remove(fields[1..], name), other);
      assert GetAll([fields[0]], other) == if SameName(fields[0].name, other) then [fields[0].value] else [];
    }
  }

  /** Setting a field leaves one value for its name and every other name as it was. */
  lemma SetReplaces(fields: seq<Field>, name: Bytes, value: Bytes, other: Bytes)
    ensures var fields' := Remove(fields, name) + [Field(name, value)];
            GetAll(fields', other) == if SameName(name, other) then [value] else GetAll(fields, other)
  {
    RemoveHides(fields, name, other);
    GetAllConcat(Remove(fields, name), [Field(name, value)], other);
    assert GetAll([Field(name, value)], other) == if SameName(name, other) then [value] else [];
  }

  class HeaderMap {
    var entries: seq<Field>

    constructor ()
      ensures entries == []
    {
      entries := [];
    }

    method Add(key: Bytes, value: Bytes)
      modifies this
      ensures entries == old(entries) + [Field(key, value)]
    {
      entries := entries + [Field(key, value)];
    }

    /** What is left answers as `RemoveHides` says. */
    method RemoveKey(key: Bytes)
      modifies this
      ensures entries == Remove(old(entries), key)
    {
      var all := entries;
      var kept: seq<Field> := [];
      for i := 0 to |all|
        invariant kept + Remove(all[i..], key) == Remove(all, key)
      {
        assert all[i..][1..] == all[i + 1..];
        if !SameName(all[i].name, key) {
          assert kept + ([all[i]] + Remove(all[i + 1..], key)) == kept + [all[i]] + Remove(all[i + 1..], key);
          kept := kept + [all[i]];
        }
      }
      assert all[|all|..] == [];
      entries := kept;
    }

    /** The new fields answer as `SetReplaces` says. */
    method Set(key: Bytes, value: Bytes)
      modifies this
      ensures entries == Remove(old(entries), key) + [Field(key, value)]
    {
      RemoveKey(key);
      Add(key, value);
    }

    method Lookup(key: Bytes) returns (v: Option<Bytes>)
      ensures v == Get(entries, key)
    {
      for i := 0 to |entries|
        invariant Get(entries[i..], key) == Get(entries, key)
      {
        assert entries[i..][1..] == entries[i + 1..];
        if SameName(entries[i].name, key) {
          return Some(entries[i].value);
        }
      }
      return None;
    }
  }
}
