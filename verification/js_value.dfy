/**
 * The slice of JavaScript value semantics the chat controller relies on:
 * JSON values as a parsed response holds them, `undefined`, truthiness,
 * and property access that throws a TypeError on `null` and `undefined`.
 */
module JsValues {

  /** A value produced by `JSON.parse`. Object members are keyed by name. */
  datatype Json =
    | JNull
    | JBool(b: bool)
    | JNum(n: real)
    | JStr(s: string)
    | JArr(items: seq<Json>)
    | JObj(members: map<string, Json>)

  /** A JavaScript value reachable from a parsed response: `undefined` or JSON. */
  datatype JsValue = Undefined | Val(json: Json)

  /** JavaScript truthiness: `undefined`, `null`, `false`, `0` and `""` are falsy. */
  predicate Truthy(v: JsValue) {
    match v
    case Undefined => false
    case Val(j) =>
      match j
      case JNull => false
      case JBool(b) => b
      case JNum(n) => n != 0.0
      case JStr(s) => s != ""
      case JArr(_) => true
      case JObj(_) => true
  }

  /** `null` or `undefined`: the values whose property access throws. */
  predicate Nullish(v: JsValue) {
    v == Undefined || v == Val(JNull)
  }

  /**
   * A property key: a member name (one that is not an array index and not
   * inherited from a built-in prototype, such as "outputs", "message",
   * "text", or the own property "length" of arrays and strings), or a
   * numeric index written `x[i]`.
   */
  datatype Key = Name(name: string) | Index(i: nat)

  /** The outcome of one property access: a value, or a thrown TypeError. */
  datatype Access = Ok(value: JsValue) | TypeError

  function Digit(d: nat): char
    requires d < 10
  {
    "0123456789"[d]
  }

  /** The decimal spelling JavaScript uses when a number indexes an object. */
  function Decimal(n: nat): (r: string)
    ensures |r| > 0
  {
    if n < 10 then [Digit(n)] else Decimal(n / 10) + [Digit(n % 10)]
  }

  function KeyString(k: Key): string {
    match k
    case Name(name) => name
    case Index(i) => Decimal(i)
  }

  /**
   * `v[k]` / `v.k`. Objects look the key up; arrays and strings answer
   * in-range indices (a string yields a one-character string) and "length";
   * every other lookup on a non-nullish value is `undefined`.
   */
  function Get(v: JsValue, k: Key): (r: Access)
    ensures r.TypeError? <==> Nullish(v)
    ensures v.Val? && v.json.JObj? ==>
      r == Ok(if KeyString(k) in v.json.members then Val(v.json.members[KeyString(k)]) else Undefined)
    ensures v.Val? && v.json.JArr? && k.Index? && k.i < |v.json.items| ==> r == Ok(Val(v.json.items[k.i]))
    ensures v.Val? && v.json.JArr? && k.Index? && k.i >= |v.json.items| ==> r == Ok(Undefined)
    ensures v.Val? && v.json.JStr? && k.Index? && k.i < |v.json.s| ==> r == Ok(Val(JStr([v.json.s[k.i]])))
    ensures v.Val? && v.json.JStr? && k.Index? && k.i >= |v.json.s| ==> r == Ok(Undefined)
    ensures v.Val? && v.json.JArr? && k == Name("length") ==> r == Ok(Val(JNum(|v.json.items| as real)))
    ensures v.Val? && v.json.JStr? && k == Name("length") ==> r == Ok(Val(JNum(|v.json.s| as real)))
    ensures k.Name? && k.name != "length" && v.Val? && !v.json.JObj? && r.Ok? ==> r.value == Undefined
    ensures v.Val? && (v.json.JBool? || v.json.JNum?) ==> r == Ok(Undefined)
  {
    match v
    case Undefined => TypeError
    case Val(j) =>
      match j
      case JNull => TypeError
      case JObj(m) =>
        var p := KeyString(k);
        Ok(if p in m then Val(m[p]) else Undefined)
      case JArr(xs) =>
        if k == Name("length") then Ok(Val(JNum(|xs| as real)))
        else Ok(if k.Index? && k.i < |xs| then Val(xs[k.i]) else Undefined)
      case JStr(s) =>
        if k == Name("length") then Ok(Val(JNum(|s| as real)))
        else Ok(if k.Index? && k.i < |s| then Val(JStr([s[k.i]])) else Undefined)
      case JBool(_) => Ok(Undefined)
      case JNum(_) => Ok(Undefined)
  }

  /** An unguarded access chain `v.k1.k2...`: the first TypeError ends it. */
  function Walk(v: JsValue, path: seq<Key>): Access
    decreases |path|
  {
    if path == [] then Ok(v)
    else
      match Get(v, path[0])
      case TypeError => TypeError
      case Ok(w) => Walk(w, path[1..])
  }

  /** Continue a walk from wherever an earlier walk stopped. */
  function Then(a: Access, path: seq<Key>): Access {
    match a
    case TypeError => TypeError
    case Ok(w) => Walk(w, path)
  }

  /** Walking a joined path is walking its two halves one after the other. */
  lemma {:induction false} WalkAppend(v: JsValue, p: seq<Key>, q: seq<Key>)
    ensures Walk(v, p + q) == Then(Walk(v, p), q)
    decreases |p|
  {
    if p == [] {
      assert p + q == q;
    } else {
      assert (p + q)[0] == p[0];
      assert (p + q)[1..] == p[1..] + q;
      match Get(v, p[0])
      case TypeError =>
      case Ok(w) => WalkAppend(w, p[1..], q);
    }
  }
}

/** ECMAScript `String.prototype.trim` and the emptiness test `!s.trim()`. */
module JsStrings {

  /** ECMAScript WhiteSpace and LineTerminator code points. */
  predicate IsWhiteSpace(c: char) {
    || c == '\t' || c == '\n' || c == '\U{000B}' || c == '\U{000C}' || c == '\r'
    || c == ' ' || c == '\U{00A0}' || c == '\U{1680}'
    || ('\U{2000}' <= c <= '\U{200A}')
    || c == '\U{2028}' || c == '\U{2029}' || c == '\U{202F}' || c == '\U{205F}'
    || c == '\U{3000}' || c == '\U{FEFF}'
  }

  predicate AllWhiteSpace(s: string) {
    forall i :: 0 <= i < |s| ==> IsWhiteSpace(s[i])
  }

  /** Drops the leading white space: a suffix of `s` that starts with a non-space. */
  function TrimStart(s: string): (r: string)
    ensures |r| <= |s| && r == s[|s| - |r|..]
    ensures r == [] || !IsWhiteSpace(r[0])
    ensures AllWhiteSpace(s[..|s| - |r|])
    decreases |s|
  {
    if s != [] && IsWhiteSpace(s[0]) then
      var r := TrimStart(s[1..]);
      assert s[..|s| - |r|] == [s[0]] + s[1..][..|s| - 1 - |r|];
      r
    else s
  }

  /** Drops the trailing white space: a prefix of `s` that ends with a non-space. */
  function TrimEnd(s: string): (r: string)
    ensures |r| <= |s| && r == s[..|r|]
    ensures r == [] || !IsWhiteSpace(r[|r| - 1])
    ensures AllWhiteSpace(s[|r|..])
    decreases |s|
  {
    if s != [] && IsWhiteSpace(s[|s| - 1]) then
      var r := TrimEnd(s[..|s| - 1]);
      assert s[|r|..] == s[..|s| - 1][|r|..] + [s[|s| - 1]];
      r
    else s
  }

  /**
   * `s.trim()`: the slice of `s` left after dropping the white space at both
   * ends; it is empty or starts and ends with a non-space.
   */
  function Trim(s: string): (r: string)
    ensures r == [] || (!IsWhiteSpace(r[0]) && !IsWhiteSpace(r[|r| - 1]))
    ensures exists i ::
      (0 <= i <= |s| - |r| && r == s[i..i + |r|] && AllWhiteSpace(s[..i]) && AllWhiteSpace(s[i + |r|..]))
  {
    var t := TrimStart(s);
    var r := TrimEnd(t);
    var i := |s| - |t|;
    assert t == s[i..];
    assert r == s[i..i + |r|];
    assert AllWhiteSpace(s[..i]);
    assert s[i + |r|..] == t[|r|..];
    assert AllWhiteSpace(s[i + |r|..]);
    r
  }

  /** An all-white-space string trims to the empty string, and only such a string does. */
  lemma TrimEmptyIffAllWhiteSpace(s: string)
    ensures Trim(s) == "" <==> AllWhiteSpace(s)
  {
    var t := TrimStart(s);
    assert t != [] ==> t[0] == s[|s| - |t|];
    if Trim(s) == "" {
      assert t[0..] == t;
      assert s == s[..|s| - |t|];
    }
  }

  /** `!s.trim()`: the trimmed string is empty, hence falsy. */
  function Blank(s: string): (blank: bool)
    ensures blank <==> AllWhiteSpace(s)
  {
    TrimEmptyIffAllWhiteSpace(s);
    Trim(s) == ""
  }
}
