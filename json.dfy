/**
 * JSON values as both ends of the wire see them, with the two readings the code
 * applies to them: JavaScript truthiness and property access on the client,
 * Python truthiness and `dict.get` on the server.
 *
 * A number is held as its literal text; its binary floating-point value is not
 * modelled. An object is the ordered list of its members as the JSON text has
 * them: Python dicts keep that order, and so do JavaScript objects for every
 * member name used here (none of them looks like an array index, which
 * JavaScript would list first).
 */
module Json {
  import opened Wrappers

  datatype JsValue =
    | JNull
    | JBool(b: bool)
    | JNum(literal: string)
    | JStr(s: string)
    | JArr(items: seq<JsValue>)
    | JObj(fields: seq<Field>)

  datatype Field = Field(key: string, value: JsValue)

  /** The member named `key`, first match. */
  function Lookup(fields: seq<Field>, key: string): (r: Option<JsValue>)
    ensures r.Some? <==> exists i :: 0 <= i < |fields| && fields[i].key == key
    ensures r.Some? ==> exists i :: 0 <= i < |fields| && fields[i] == Field(key, r.value)
    decreases |fields|
  {
    if fields == [] then None
    else if fields[0].key == key then Some(fields[0].value)
    else Lookup(fields[1..], key)
  }

  predicate DistinctKeys(fields: seq<Field>)
  {
    forall i, j :: 0 <= i < j < |fields| ==> fields[i].key != fields[j].key
  }

  /** With distinct keys, looking a member's key up finds that member. */
  lemma {:induction false} LookupMember(fields: seq<Field>, i: int)
    requires DistinctKeys(fields) && 0 <= i < |fields|
    ensures Lookup(fields, fields[i].key) == Some(fields[i].value)
    decreases |fields|
  {
    if i > 0 {
      assert fields[0].key != fields[i].key;
      assert DistinctKeys(fields[1..]) by {
        forall a, b | 0 <= a < b < |fields[1..]| ensures fields[1..][a].key != fields[1..][b].key {
          assert fields[1..][a] == fields[a + 1] && fields[1..][b] == fields[b + 1];
        }
      }
      LookupMember(fields[1..], i - 1);
      assert fields[1..][i - 1] == fields[i];
    }
  }

  // ---------------------------------------------------------------
  // Number literals (the JSON number grammar)
  // ---------------------------------------------------------------

  predicate IsDigit(c: char) { '0' <= c <= '9' }

  /** Characters a number token is made of; the parser reads a maximal run of them. */
  predicate IsNumChar(c: char) { IsDigit(c) || c == '-' || c == '+' || c == '.' || c == 'e' || c == 'E' }

  /** Length of the leading run of digits. */
  function DigitRun(s: string): (n: nat)
    ensures n <= |s|
    ensures forall k :: 0 <= k < n ==> IsDigit(s[k])
    ensures n < |s| ==> !IsDigit(s[n])
    decreases |s|
  {
    if s != [] && IsDigit(s[0]) then 1 + DigitRun(s[1..]) else 0
  }

  /** A text of digits only is one digit run. */
  lemma {:induction false} DigitRunAll(s: string)
    requires forall k :: 0 <= k < |s| ==> IsDigit(s[k])
    ensures DigitRun(s) == |s|
    decreases |s|
  {
    if s != [] {
      DigitRunAll(s[1..]);
    }
  }

  predicate ExponentPart(s: string)
  {
    s == [] ||
    (s[0] in "eE" &&
      var d := if |s| > 1 && s[1] in "+-" then s[2..] else s[1..];
      d != [] && DigitRun(d) == |d|)
  }

  predicate FractionAndExponent(s: string)
  {
    if s != [] && s[0] == '.' then
      var k := DigitRun(s[1..]); k > 0 && ExponentPart(s[1 + k..])
    else ExponentPart(s)
  }

  /** `-? (0 | [1-9][0-9]*) (. [0-9]+)? ([eE] [+-]? [0-9]+)?` */
  predicate NumberLiteral(s: string)
  {
    var u := if s != [] && s[0] == '-' then s[1..] else s;
    var k := DigitRun(u);
    k > 0 && (u[0] != '0' || k == 1) && FractionAndExponent(u[k..])
  }

  /** A literal the printer can write and the parser reads back whole. */
  predicate ValidNumber(lit: string)
  {
    NumberLiteral(lit) && forall k :: 0 <= k < |lit| ==> IsNumChar(lit[k])
  }

  /** Index where the exponent starts, or the length when there is none. */
  function MantissaLen(s: string): (n: nat)
    ensures n <= |s|
    decreases |s|
  {
    if s == [] || s[0] in "eE" then 0 else 1 + MantissaLen(s[1..])
  }

  /** The literal denotes zero (`0`, `-0`, `0.00`, `0e7`, ...): every mantissa digit is `0`. */
  predicate ZeroLiteral(lit: string)
  {
    forall k :: 0 <= k < MantissaLen(lit) ==> lit[k] in "-.0"
  }

  /** Values as JSON text can carry them: valid number literals and objects without repeated keys. */
  predicate WellFormed(v: JsValue)
  {
    match v
    case JNum(lit) => ValidNumber(lit)
    case JArr(items) => forall i :: 0 <= i < |items| ==> WellFormed(items[i])
    case JObj(fields) => DistinctKeys(fields) && forall i :: 0 <= i < |fields| ==> WellFormed(fields[i].value)
    case _ => true
  }

  /** An object built from string members only. */
  function StringObject(fields: seq<(string, string)>): (r: JsValue)
    ensures r.JObj? && |r.fields| == |fields|
    ensures forall i :: 0 <= i < |fields| ==> r.fields[i] == Field(fields[i].0, JStr(fields[i].1))
  {
    JObj(seq(|fields|, i requires 0 <= i < |fields| => Field(fields[i].0, JStr(fields[i].1))))
  }

  /** An array of strings. */
  function StringArray(items: seq<string>): (r: JsValue)
    ensures r.JArr? && |r.items| == |items| && WellFormed(r)
    ensures forall i :: 0 <= i < |items| ==> r.items[i] == JStr(items[i])
  {
    JArr(seq(|items|, i requires 0 <= i < |items| => JStr(items[i])))
  }

  // ---------------------------------------------------------------
  // JavaScript's reading of a decoded value
  // ---------------------------------------------------------------

  /**
   * The value of `v.key` in JavaScript when `v` is not null: the member of an
   * object, or `undefined` (None) for a missing member or a primitive or array
   * (none of the property names read here exist on their prototypes).
   */
  function JsProp(v: JsValue, key: string): (r: Option<JsValue>)
    requires !v.JNull?
    ensures v.JObj? ==> r == Lookup(v.fields, key)
    ensures !v.JObj? ==> r.None?
  {
    if v.JObj? then Lookup(v.fields, key) else None
  }

  /** JavaScript truthiness; None is `undefined`. Empty arrays and objects are truthy. */
  predicate JsTruthy(v: Option<JsValue>)
  {
    match v
    case None => false
    case Some(JNull) => false
    case Some(JBool(b)) => b
    case Some(JNum(lit)) => !ZeroLiteral(lit)
    case Some(JStr(s)) => s != []
    case Some(JArr(_)) => true
    case Some(JObj(_)) => true
  }

  /** JavaScript `String(v)`: what a template literal or `new Error(v)` makes of a value. */
  function JsToString(v: JsValue): string
    decreases v
  {
    match v
    case JNull => "null"
    case JBool(b) => if b then "true" else "false"
    case JNum(lit) => lit
    case JStr(s) => s
    case JArr(items) => JoinElements(items, v)
    case JObj(_) => "[object Object]"
  }

  /** `Array.prototype.join(",")`: null elements become the empty string. */
  function JoinElements(items: seq<JsValue>, ghost whole: JsValue): string
    requires forall i :: 0 <= i < |items| ==> items[i] < whole
    decreases whole, |items|
  {
    if items == [] then ""
    else
      var first := if items[0].JNull? then "" else JsToString(items[0]);
      if |items| == 1 then first else first + "," + JoinElements(items[1..], whole)
  }

  /** `v || fallback` where the result is then turned into an error message. */
  function ErrorText(v: Option<JsValue>, fallback: string): (r: string)
    ensures JsTruthy(v) ==> r == JsToString(v.value)
    ensures !JsTruthy(v) ==> r == fallback
  {
    if JsTruthy(v) then JsToString(v.value) else fallback
  }

  // ---------------------------------------------------------------
  // Python's reading of a decoded value (JSON null is Python None)
  // ---------------------------------------------------------------

  /** Python truthiness: None, False, zero and empty strings, lists and dicts are false. */
  predicate PyTruthy(v: JsValue)
  {
    match v
    case JNull => false
    case JBool(b) => b
    case JNum(lit) => !ZeroLiteral(lit)
    case JStr(s) => s != []
    case JArr(items) => items != []
    case JObj(fields) => fields != []
  }

  /** Python `d.get(key, default)` on a dict decoded from JSON. */
  function PyGet(fields: seq<Field>, key: string, default: JsValue): (r: JsValue)
    ensures Lookup(fields, key).Some? ==> r == Lookup(fields, key).value
    ensures Lookup(fields, key).None? ==> r == default
  {
    match Lookup(fields, key)
    case Some(x) => x
    case None => default
  }

  /** The two truthiness rules disagree exactly on empty arrays and empty objects. */
  lemma TruthinessDiffers(v: JsValue)
    ensures JsTruthy(Some(v)) != PyTruthy(v) <==> v == JArr([]) || v == JObj([])
  {
  }
}
