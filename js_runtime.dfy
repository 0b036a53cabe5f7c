/**
 * The slice of the JavaScript runtime the route handlers lean on: the JSON values that
 * `req.json()` and `JSON.parse` produce, thrown errors, the HTTP responses that
 * `NextResponse.json` builds, JavaScript truthiness, and `String.prototype.trim`.
 */
module JsRuntime {
  import opened Wrappers

  /** A thrown JavaScript error, seen through its `name` and `message` properties. */
  datatype JsError = JsError(name: string, message: string)

  /** A JSON value as `JSON.parse` returns it; object members keep their textual order. */
  datatype Json =
    | JNull
    | JBool(b: bool)
    | JNumber(n: real)
    | JString(s: string)
    | JArray(items: seq<Json>)
    | JObject(members: seq<(string, Json)>)

  /** A response built by `NextResponse.json(body, { status })`; the status defaults to 200. */
  datatype Response = Response(status: int, body: Json)

  /** The value of property `key` of an object: the last member with that name wins, as in `JSON.parse`. */
  function Member(members: seq<(string, Json)>, key: string): (r: Option<Json>)
    ensures r.Some? <==> exists k :: 0 <= k < |members| && members[k].0 == key
    ensures r.Some? ==> exists k :: 0 <= k < |members| && members[k] == (key, r.value)
  {
    if members == [] then None
    else if members[|members| - 1].0 == key then Some(members[|members| - 1].1)
    else Member(members[..|members| - 1], key)
  }

  /** The message V8 gives the TypeError thrown by `const { key } = null`. */
  function DestructureNullMessage(key: string, source: string): string
  {
    "Cannot destructure property '" + key + "' of '" + source + "' as it is null."
  }

  /**
   * The value bound by `const { key } = value` for a value `req.json()` produced: a TypeError
   * for `null`, the member for an object, `undefined` (None) for every other JSON value.
   */
  function Destructure(value: Json, key: string, source: string): (r: Result<Option<Json>, JsError>)
    ensures r.Err? <==> value.JNull?
    ensures r.Ok? && r.value.Some? ==> value.JObject?
  {
    match value
    case JNull => Err(JsError("TypeError", DestructureNullMessage(key, source)))
    case JObject(members) => Ok(Member(members, key))
    case _ => Ok(None)
  }

  /** JavaScript truthiness of a JSON value or of `undefined` (None). */
  function Truthy(v: Option<Json>): (r: bool)
    ensures r <==> v.Some? && v.value !in {JNull, JBool(false), JNumber(0.0), JString("")}
  {
    match v
    case None => false
    case Some(JNull) => false
    case Some(JBool(b)) => b
    case Some(JNumber(n)) => n != 0.0
    case Some(JString(s)) => s != ""
    case Some(_) => true
  }

  /** The ECMAScript LineTerminator code points. */
  predicate IsLineTerminator(c: char)
  {
    c == '\n' || c == '\r' || c == '\U{2028}' || c == '\U{2029}'
  }

  /** The code points `String.prototype.trim` removes: WhiteSpace (tab, VT, FF, the Zs space separators, BOM) and LineTerminator. */
  predicate IsJsWhitespace(c: char)
  {
    || c == '\t' || c == '\U{000B}' || c == '\U{000C}' || c == ' ' || c == '\U{00A0}' || c == '\U{FEFF}'
    || c == '\U{1680}' || ('\U{2000}' <= c <= '\U{200A}') || c == '\U{202F}' || c == '\U{205F}' || c == '\U{3000}'
    || IsLineTerminator(c)
  }

  /** `s` with its leading whitespace removed. */
  function TrimStart(s: string): (r: string)
    ensures |r| <= |s| && r == s[|s| - |r|..]
    ensures forall k :: 0 <= k < |s| - |r| ==> IsJsWhitespace(s[k])
    ensures r == [] || !IsJsWhitespace(r[0])
  {
    if s != [] && IsJsWhitespace(s[0]) then TrimStart(s[1..]) else s
  }

  /** `s` with its trailing whitespace removed. */
  function TrimEnd(s: string): (r: string)
    ensures |r| <= |s| && r == s[..|r|]
    ensures forall k :: |r| <= k < |s| ==> IsJsWhitespace(s[k])
    ensures r == [] || !IsJsWhitespace(r[|r| - 1])
  {
    if s != [] && IsJsWhitespace(s[|s| - 1]) then TrimEnd(s[..|s| - 1]) else s
  }

  /** `String.prototype.trim`. */
  function Trim(s: string): (r: string)
    ensures |r| <= |s|
    ensures r == [] || (!IsJsWhitespace(r[0]) && !IsJsWhitespace(r[|r| - 1]))
  {
    TrimEnd(TrimStart(s))
  }

  /** Where the trimmed text begins in the input: the number of leading whitespace code points. */
  function TrimOffset(s: string): nat
  {
    |s| - |TrimStart(s)|
  }

  /** Trimming keeps a contiguous piece of the input and drops only whitespace around it. */
  lemma TrimIsInfix(s: string)
    ensures TrimOffset(s) + |Trim(s)| <= |s|
    ensures Trim(s) == s[TrimOffset(s)..TrimOffset(s) + |Trim(s)|]
    ensures forall k :: 0 <= k < TrimOffset(s) ==> IsJsWhitespace(s[k])
    ensures forall k :: TrimOffset(s) + |Trim(s)| <= k < |s| ==> IsJsWhitespace(s[k])
  {
    var u := TrimStart(s);
    var r := TrimEnd(u);
    PrefixOfSuffix(s, u, r);
  }

  /** A prefix `r` of a suffix `u` of `s` is the slice of `s` right after the cut, and what
   *  follows `r` in `u` is what follows that slice in `s`. */
  lemma PrefixOfSuffix(s: string, u: string, r: string)
    requires |u| <= |s| && u == s[|s| - |u|..]
    requires |r| <= |u| && r == u[..|r|]
    ensures r == s[|s| - |u|..|s| - |u| + |r|]
    ensures forall k :: |s| - |u| + |r| <= k < |s| ==> s[k] == u[k - (|s| - |u|)]
  {
  }

  /** A string made only of whitespace trims to the empty string. */
  lemma TrimAllWhitespace(s: string)
    requires forall k :: 0 <= k < |s| ==> IsJsWhitespace(s[k])
    ensures Trim(s) == []
  {
  }

  /** A string that neither starts nor ends with whitespace is left alone by trim. */
  lemma TrimUnchanged(s: string)
    requires s == [] || (!IsJsWhitespace(s[0]) && !IsJsWhitespace(s[|s| - 1]))
    ensures Trim(s) == s
  {
  }

  /** Trimming twice is trimming once. */
  lemma TrimIdempotent(s: string)
    ensures Trim(Trim(s)) == Trim(s)
  {
    TrimUnchanged(Trim(s));
  }
}
