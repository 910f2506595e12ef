/** A decoded `serde_json::Value` and the accessors the searchers traverse it with.
    Numbers are integers; an object is its members in the decoder's iteration order
    (serde_json's default map keeps keys sorted), with no key repeated. */
module Json {
  import opened Wrappers
  import opened Text

  datatype Json =
    | JNull
    | JBool(b: bool)
    | JNum(n: int)
    | JStr(s: string)
    | JArr(items: seq<Json>)
    | JObj(members: seq<(string, Json)>)

  /** The member value for `key` among `members`, first match wins. */
  function Lookup(members: seq<(string, Json)>, key: string): Option<Json> {
    if members == [] then None
    else if members[0].0 == key then Some(members[0].1)
    else Lookup(members[1..], key)
  }

  /** `Lookup` finds a member exactly when one has the key, and what it returns is the
      value of the first such member. */
  lemma {:induction false} LookupFinds(members: seq<(string, Json)>, key: string)
    ensures Lookup(members, key).Some? <==> exists i :: 0 <= i < |members| && members[i].0 == key
    ensures Lookup(members, key).Some? ==>
      exists i :: 0 <= i < |members| && members[i] == (key, Lookup(members, key).value)
                  && forall j :: 0 <= j < i ==> members[j].0 != key
  {
    if members != [] && members[0].0 != key {
      LookupFinds(members[1..], key);
      if Lookup(members, key).Some? {
        var i :| 0 <= i < |members[1..]| && members[1..][i] == (key, Lookup(members, key).value)
                 && forall j :: 0 <= j < i ==> members[1..][j].0 != key;
        assert members[i + 1] == (key, Lookup(members, key).value);
        assert forall j :: 0 <= j < i + 1 ==> members[j].0 != key by {
          forall j | 0 <= j < i + 1 ensures members[j].0 != key {
            if j > 0 {
              assert members[j] == members[1..][j - 1];
            }
          }
        }
      } else {
        forall i | 0 <= i < |members| ensures members[i].0 != key {
          if i > 0 {
            assert members[i] == members[1..][i - 1];
          }
        }
      }
    }
  }

  /** `Value::get(&str)`: the member of an object; `None` for a missing key or a non-object.
      A key that is present with value `null` gives `Some(JNull)`. */
  function Get(v: Json, key: string): Option<Json> {
    if v.JObj? then Lookup(v.members, key) else None
  }

  /** `v[key]` indexing: like `get`, but a missing member reads as `null`. */
  function Field(v: Json, key: string): Json {
    Get(v, key).GetOr(JNull)
  }

  /** `v[i]` indexing: an element of an array, or `null`. */
  function At(v: Json, i: nat): Json {
    if v.JArr? && i < |v.items| then v.items[i] else JNull
  }

  function AsStr(v: Json): Option<string> {
    if v.JStr? then Some(v.s) else None
  }

  function AsArray(v: Json): Option<seq<Json>> {
    if v.JArr? then Some(v.items) else None
  }

  function AsObject(v: Json): Option<seq<(string, Json)>> {
    if v.JObj? then Some(v.members) else None
  }

  const I64_MIN: int := -0x8000_0000_0000_0000
  const I64_MAX: int := 0x7FFF_FFFF_FFFF_FFFF

  /** `Value::as_i64`: an integer that fits in 64 signed bits. */
  function AsI64(v: Json): Option<int> {
    if v.JNum? && I64_MIN <= v.n <= I64_MAX then Some(v.n) else None
  }

  /** `Option::and_then(|v| v.get(key))` */
  function GetIn(v: Option<Json>, key: string): Option<Json> {
    if v.Some? then Get(v.value, key) else None
  }

  /** Member values in iteration order (`Map::values`). */
  function Values(members: seq<(string, Json)>): (r: seq<Json>)
    ensures |r| == |members|
    ensures forall i :: 0 <= i < |members| ==> r[i] == members[i].1
  {
    if members == [] then [] else [members[0].1] + Values(members[1..])
  }

  // ---------------------------------------------------------------------------
  // Compact serialisation (`Value::to_string`)

  const HexDigits: string := "0123456789abcdef"

  /** serde_json's escaping of one character inside a string literal. */
  function EscapeChar(c: char): string {
    if c == '"' then "\\\""
    else if c == '\\' then "\\\\"
    else if c == '\n' then "\\n"
    else if c == '\r' then "\\r"
    else if c == '\t' then "\\t"
    else if c == '\U{0008}' then "\\b"
    else if c == '\U{000C}' then "\\f"
    else if c < ' ' then "\\u00" + [HexDigits[c as int / 16], HexDigits[c as int % 16]]
    else [c]
  }

  function Escape(s: string): string {
    if s == [] then [] else EscapeChar(s[0]) + Escape(s[1..])
  }

  /** A string literal: the escaped text between double quotes. */
  function Quote(s: string): string {
    "\"" + Escape(s) + "\""
  }

  function JoinComma(parts: seq<string>): string {
    if parts == [] then []
    else if |parts| == 1 then parts[0]
    else parts[0] + "," + JoinComma(parts[1..])
  }

  function Render(v: Json): string
    decreases v
  {
    match v
    case JNull => "null"
    case JBool(b) => if b then "true" else "false"
    case JNum(n) => IntToString(n)
    case JStr(s) => Quote(s)
    case JArr(items) =>
      "[" + JoinComma(seq(|items|, i requires 0 <= i < |items| => Render(items[i]))) + "]"
    case JObj(members) =>
      "{" + JoinComma(seq(|members|, i requires 0 <= i < |members| =>
                            Quote(members[i].0) + ":" + Render(members[i].1))) + "}"
  }

  /** A number renders as its decimal digits, and a string without characters that need
      escaping renders as itself between quotes. */
  lemma {:induction false} RenderScalars(n: nat, s: string)
    requires forall k :: 0 <= k < |s| ==> s[k] != '"' && s[k] != '\\' && s[k] >= ' '
    ensures Render(JNum(n)) == NatToString(n)
    ensures Render(JStr(s)) == "\"" + s + "\""
  {
    EscapePlain(s);
  }

  lemma {:induction false} EscapePlain(s: string)
    requires forall k :: 0 <= k < |s| ==> s[k] != '"' && s[k] != '\\' && s[k] >= ' '
    ensures Escape(s) == s
  {
    if s != [] {
      EscapePlain(s[1..]);
      assert [s[0]] + s[1..] == s;
    }
  }
}
