/**
 * JSON text: one printer covering Python's `json.dumps` defaults and JavaScript's
 * `JSON.stringify`, and one strict parser for the grammar Python's `json.loads`
 * and JavaScript's `JSON.parse` share. The main result is the round trip
 * `Loads(Print(st, v)) == Some(v)` for every well-formed value, together with the
 * fact that everything `Loads` returns is well-formed.
 */
module JsonCodec {
  import opened Wrappers
  import opened Json

  /** Separator spacing and whether non-ASCII characters are written as `\u` escapes. */
  datatype Style = Style(compact: bool, asciiOnly: bool)

  /** `json.dumps(v)`: separators `", "` and `": "`, `ensure_ascii=True`. */
  const PythonDumps := Style(false, true)

  /** `JSON.stringify(v)`: separators `","` and `":"`, characters written as they are. */
  const JsStringify := Style(true, false)

  function ItemSep(st: Style): string { if st.compact then "," else ", " }

  function KeySep(st: Style): string { if st.compact then ":" else ": " }

  // ---------------------------------------------------------------
  // Hexadecimal escapes
  // ---------------------------------------------------------------

  function HexDigit(d: nat): char
    requires d < 16
  {
    if d < 10 then '0' + d as char else 'a' + (d - 10) as char
  }

  /** Value of a hexadecimal digit in either case. */
  function HexValue(c: char): Option<nat>
  {
    if '0' <= c <= '9' then Some(c as nat - '0' as nat)
    else if 'a' <= c <= 'f' then Some(c as nat - 'a' as nat + 10)
    else if 'A' <= c <= 'F' then Some(c as nat - 'A' as nat + 10)
    else None
  }

  /** Four lower-case hex digits, as both printers write them. */
  function Hex4(n: nat): (r: string)
    requires n < 0x10000
    ensures |r| == 4
  {
    var n1 := n / 16;
    var n2 := n1 / 16;
    [HexDigit(n2 / 16), HexDigit(n2 % 16), HexDigit(n1 % 16), HexDigit(n % 16)]
  }

  /** The code unit spelled by the first four characters. */
  function ReadHex4(s: string): (r: Option<nat>)
    requires |s| >= 4
    ensures r.Some? ==> r.value < 0x10000
  {
    match (HexValue(s[0]), HexValue(s[1]), HexValue(s[2]), HexValue(s[3]))
    case (Some(a), Some(b), Some(c), Some(d)) =>
      if a < 16 && b < 16 && c < 16 && d < 16 then Some(((a * 16 + b) * 16 + c) * 16 + d) else None
    case _ => None
  }

  lemma HexDigitValue(d: nat)
    requires d < 16
    ensures HexValue(HexDigit(d)) == Some(d)
  {
  }

  lemma ReadHex4Written(n: nat, t: string)
    requires n < 0x10000
    ensures ReadHex4(Hex4(n) + t) == Some(n)
  {
    var s := Hex4(n) + t;
    var n1 := n / 16;
    var n2 := n1 / 16;
    assert n2 / 16 < 16;
    assert s[0] == HexDigit(n2 / 16) && s[1] == HexDigit(n2 % 16);
    assert s[2] == HexDigit(n1 % 16) && s[3] == HexDigit(n % 16);
    HexDigitValue(n2 / 16);
    HexDigitValue(n2 % 16);
    HexDigitValue(n1 % 16);
    HexDigitValue(n % 16);
    assert n2 == n2 / 16 * 16 + n2 % 16;
    assert n1 == n2 * 16 + n1 % 16;
    assert n == n1 * 16 + n % 16;
  }

  // ---------------------------------------------------------------
  // Printing
  // ---------------------------------------------------------------

  /** How one character of a string is written between the quotes. */
  function EscapeChar(st: Style, c: char): (r: string)
    ensures r != []
  {
    var n := c as int;
    if c == '"' then "\\\""
    else if c == '\\' then "\\\\"
    else if n == 8 then "\\b"
    else if n == 12 then "\\f"
    else if c == '\n' then "\\n"
    else if c == '\r' then "\\r"
    else if c == '\t' then "\\t"
    else if n < 0x20 then "\\u" + Hex4(n)
    else if st.asciiOnly && n > 0x7E then
      if n < 0x10000 then "\\u" + Hex4(n)
      else "\\u" + Hex4(0xD800 + (n - 0x10000) / 0x400) + "\\u" + Hex4(0xDC00 + (n - 0x10000) % 0x400)
    else [c]
  }

  /**
   * The printer, written with the text that follows as a parameter: `Emit(st, v, k)`
   * is the text of `v` followed by `k`, so `Print(st, v) == Emit(st, v, "")`.
   */
  function Emit(st: Style, v: JsValue, k: string): string
    decreases v
  {
    match v
    case JNull => "null" + k
    case JBool(b) => (if b then "true" else "false") + k
    case JNum(lit) => lit + k
    case JStr(s) => "\"" + EmitChars(st, s, "\"" + k)
    case JArr(items) => "[" + EmitItems(st, items, "]" + k)
    case JObj(fields) => "{" + EmitFields(st, fields, "}" + k)
  }

  /** The characters of a string, escaped, followed by `k`. */
  function EmitChars(st: Style, s: string, k: string): string
    decreases |s|
  {
    if s == [] then k else EscapeChar(st, s[0]) + EmitChars(st, s[1..], k)
  }

  /** Array elements separated by `ItemSep`, followed by `k`. */
  function EmitItems(st: Style, items: seq<JsValue>, k: string): string
    decreases items
  {
    if items == [] then k
    else if |items| == 1 then Emit(st, items[0], k)
    else Emit(st, items[0], ItemSep(st) + EmitItems(st, items[1..], k))
  }

  /** Object members `"key"` `KeySep` value, separated by `ItemSep`, followed by `k`. */
  function EmitFields(st: Style, fields: seq<Field>, k: string): string
    decreases fields
  {
    if fields == [] then k
    else
      var after := if |fields| == 1 then k else ItemSep(st) + EmitFields(st, fields[1..], k);
      "\"" + EmitChars(st, fields[0].key, "\"" + KeySep(st) + Emit(st, fields[0].value, after))
  }

  /** The JSON text of `v`. */
  function Print(st: Style, v: JsValue): string
  {
    Emit(st, v, "")
  }

  // ---------------------------------------------------------------
  // Parsing
  // ---------------------------------------------------------------

  /** JSON insignificant whitespace. */
  predicate IsWs(c: char) { c == ' ' || c == '\t' || c == '\n' || c == '\r' }

  function SkipWs(s: string): (r: string)
    ensures |r| <= |s|
    ensures r == [] || !IsWs(r[0])
    decreases |s|
  {
    if s != [] && IsWs(s[0]) then SkipWs(s[1..]) else s
  }

  /** Length of the leading run of number characters. */
  function NumSpan(s: string): (n: nat)
    ensures n <= |s|
    ensures forall k :: 0 <= k < n ==> IsNumChar(s[k])
    decreases |s|
  {
    if s != [] && IsNumChar(s[0]) then 1 + NumSpan(s[1..]) else 0
  }

  /** The character a one-letter escape stands for. */
  function ShortEscape(c: char): Option<char>
  {
    if c == '"' || c == '\\' || c == '/' then Some(c)
    else if c == 'b' then Some(8 as char)
    else if c == 'f' then Some(12 as char)
    else if c == 'n' then Some('\n')
    else if c == 'r' then Some('\r')
    else if c == 't' then Some('\t')
    else None
  }

  predicate IsHighSurrogate(n: int) { 0xD800 <= n <= 0xDBFF }

  predicate IsLowSurrogate(n: int) { 0xDC00 <= n <= 0xDFFF }

  /** The character a surrogate pair encodes. */
  function CombineSurrogates(hi: int, lo: int): char
    requires IsHighSurrogate(hi) && IsLowSurrogate(lo)
  {
    (0x10000 + (hi - 0xD800) * 0x400 + (lo - 0xDC00)) as char
  }

  /** A `\u` escape, `s` starting just after the `u`; a high surrogate must be followed by a low one. */
  function ParseUnicodeEscape(s: string): (r: Option<(char, string)>)
    ensures r.Some? ==> |r.value.1| < |s|
  {
    if |s| < 4 then None
    else
      match ReadHex4(s)
      case None => None
      case Some(hi) =>
        if IsLowSurrogate(hi) then None
        else if !IsHighSurrogate(hi) then Some((hi as char, s[4..]))
        else if |s| >= 10 && s[4] == '\\' && s[5] == 'u' then
          match ReadHex4(s[6..])
          case None => None
          case Some(lo) => if IsLowSurrogate(lo) then Some((CombineSurrogates(hi, lo), s[10..])) else None
        else None
  }

  /** A backslash escape, `s` starting just after the backslash. */
  function ParseEscape(s: string): (r: Option<(char, string)>)
    ensures r.Some? ==> |r.value.1| < |s|
  {
    if s == [] then None
    else if s[0] == 'u' then ParseUnicodeEscape(s[1..])
    else
      match ShortEscape(s[0])
      case None => None
      case Some(c) => Some((c, s[1..]))
  }

  /** The body of a string literal, `s` starting just after the opening quote. */
  function ParseString(s: string): (r: Option<(string, string)>)
    ensures r.Some? ==> |r.value.1| < |s|
    decreases |s|
  {
    if s == [] then None
    else if s[0] == '"' then Some(([], s[1..]))
    else if s[0] == '\\' then
      match ParseEscape(s[1..])
      case None => None
      case Some((c, rest)) =>
        match ParseString(rest)
        case None => None
        case Some((cs, after)) => Some(([c] + cs, after))
    else if (s[0] as int) < 0x20 then None
    else
      match ParseString(s[1..])
      case None => None
      case Some((cs, after)) => Some(([s[0]] + cs, after))
  }

  function ParseNumber(s: string): (r: Option<(JsValue, string)>)
    ensures r.Some? ==> |r.value.1| < |s|
  {
    var n := NumSpan(s);
    if NumberLiteral(s[..n]) then Some((JNum(s[..n]), s[n..])) else None
  }

  /** Python's `dict` from a list of pairs: a repeated key keeps its first position and takes the later value. */
  function Put(fields: seq<Field>, f: Field): (r: seq<Field>)
    decreases |fields|
  {
    if fields == [] then [f]
    else if fields[0].key == f.key then [f] + fields[1..]
    else [fields[0]] + Put(fields[1..], f)
  }

  function Collapse(pairs: seq<Field>): seq<Field>
    decreases |pairs|
  {
    if pairs == [] then [] else Put(Collapse(pairs[..|pairs| - 1]), pairs[|pairs| - 1])
  }

  /** One value after optional whitespace; returns the value and the text after it. */
  function ParseValue(s: string): (r: Option<(JsValue, string)>)
    ensures r.Some? ==> |r.value.1| < |s|
    decreases |s|, 0
  {
    var t := SkipWs(s);
    if t == [] then None
    else if t[0] == 'n' then (if |t| >= 4 && t[..4] == "null" then Some((JNull, t[4..])) else None)
    else if t[0] == 't' then (if |t| >= 4 && t[..4] == "true" then Some((JBool(true), t[4..])) else None)
    else if t[0] == 'f' then (if |t| >= 5 && t[..5] == "false" then Some((JBool(false), t[5..])) else None)
    else if t[0] == '"' then
      match ParseString(t[1..])
      case None => None
      case Some((str, rest)) => Some((JStr(str), rest))
    else if t[0] == '[' then ParseArray(t[1..])
    else if t[0] == '{' then ParseObject(t[1..])
    else ParseNumber(t)
  }

  /** An array, `s` starting just after `[`. */
  function ParseArray(s: string): (r: Option<(JsValue, string)>)
    ensures r.Some? ==> |r.value.1| < |s|
    decreases |s|, 2
  {
    var t := SkipWs(s);
    if t != [] && t[0] == ']' then Some((JArr([]), t[1..]))
    else
      match ParseItems(t)
      case None => None
      case Some((items, rest)) => Some((JArr(items), rest))
  }

  /** `value (, value)* ]` */
  function ParseItems(s: string): (r: Option<(seq<JsValue>, string)>)
    ensures r.Some? ==> |r.value.1| < |s|
    decreases |s|, 1
  {
    match ParseValue(s)
    case None => None
    case Some((v, rest)) =>
      var t := SkipWs(rest);
      if t == [] then None
      else if t[0] == ']' then Some(([v], t[1..]))
      else if t[0] == ',' then
        match ParseItems(t[1..])
        case None => None
        case Some((vs, after)) => Some(([v] + vs, after))
      else None
  }

  /** An object, `s` starting just after `{`. */
  function ParseObject(s: string): (r: Option<(JsValue, string)>)
    ensures r.Some? ==> |r.value.1| < |s|
    decreases |s|, 2
  {
    var t := SkipWs(s);
    if t != [] && t[0] == '}' then Some((JObj([]), t[1..]))
    else
      match ParseFields(t)
      case None => None
      case Some((pairs, rest)) => Some((JObj(Collapse(pairs)), rest))
  }

  /** `"key" : value (, "key" : value)* }` */
  function ParseFields(s: string): (r: Option<(seq<Field>, string)>)
    ensures r.Some? ==> |r.value.1| < |s|
    decreases |s|, 1
  {
    var t := SkipWs(s);
    if t == [] || t[0] != '"' then None
    else
      match ParseString(t[1..])
      case None => None
      case Some((key, rest)) =>
        var c := SkipWs(rest);
        if c == [] || c[0] != ':' then None
        else
          match ParseValue(c[1..])
          case None => None
          case Some((v, rest2)) =>
            var d := SkipWs(rest2);
            if d == [] then None
            else if d[0] == '}' then Some(([Field(key, v)], d[1..]))
            else if d[0] == ',' then
              match ParseFields(d[1..])
              case None => None
              case Some((fs, after)) => Some(([Field(key, v)] + fs, after))
            else None
  }

  /** `json.loads(s)` / `JSON.parse(s)`: one value, surrounded by optional whitespace and nothing else. */
  function Loads(s: string): Option<JsValue>
  {
    match ParseValue(s)
    case None => None
    case Some((v, rest)) => if SkipWs(rest) == [] then Some(v) else None
  }
}
