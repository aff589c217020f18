/**
 * What the parser makes of the printer's output: for every well-formed value and
 * either style, `Loads(Print(st, v)) == Some(v)`.
 */
module JsonRoundTrip {
  import opened Wrappers
  import opened Json
  import opened JsonCodec

  /** Text that cannot extend a number token written just before it. */
  predicate Delimited(t: string) { t == [] || !IsNumChar(t[0]) }

  predicate AllWs(w: string) { forall k :: 0 <= k < |w| ==> IsWs(w[k]) }

  lemma SkipWsLead(w: string, s: string)
    requires AllWs(w)
    ensures SkipWs(w + s) == SkipWs(s)
    decreases |w|
  {
    if w == [] {
      assert w + s == s;
    } else {
      assert (w + s)[1..] == w[1..] + s;
      SkipWsLead(w[1..], s);
    }
  }

  lemma ParseValueLead(w: string, s: string)
    requires AllWs(w)
    ensures ParseValue(w + s) == ParseValue(s)
  {
    SkipWsLead(w, s);
  }

  lemma ParseItemsLead(w: string, s: string)
    requires AllWs(w)
    ensures ParseItems(w + s) == ParseItems(s)
  {
    ParseValueLead(w, s);
  }

  lemma ParseFieldsLead(w: string, s: string)
    requires AllWs(w)
    ensures ParseFields(w + s) == ParseFields(s)
  {
    SkipWsLead(w, s);
  }

  /** The separators are a comma or colon followed by optional spaces. */
  lemma SeparatorShape(st: Style)
    ensures ItemSep(st) == [','] + ItemSep(st)[1..] && AllWs(ItemSep(st)[1..])
    ensures KeySep(st) == [':'] + KeySep(st)[1..] && AllWs(KeySep(st)[1..])
  {
  }

  /** The item separator is a comma and then only whitespace, whatever follows it. */
  lemma SeparatorSplit(st: Style, y: string)
    ensures ItemSep(st) + y == "," + (ItemSep(st)[1..] + y) && AllWs(ItemSep(st)[1..])
  {
    SeparatorShape(st);
  }

  // ---------------------------------------------------------------
  // Strings
  // ---------------------------------------------------------------

  lemma ParseEscapeUnit(n: nat, rest: string)
    requires n < 0x10000 && !IsHighSurrogate(n) && !IsLowSurrogate(n)
    ensures ParseEscape(['u'] + Hex4(n) + rest) == Some((n as char, rest))
  {
    var s := ['u'] + Hex4(n) + rest;
    assert s[1..] == Hex4(n) + rest;
    ReadHex4Written(n, rest);
    assert (Hex4(n) + rest)[4..] == rest;
  }

  /** The pair of code units the printer writes for a character beyond the basic plane. */
  lemma SurrogateSplit(n: int) returns (hi: nat, lo: nat)
    requires 0x10000 <= n <= 0x10FFFF
    ensures hi == 0xD800 + (n - 0x10000) / 0x400 && lo == 0xDC00 + (n - 0x10000) % 0x400
    ensures IsHighSurrogate(hi) && IsLowSurrogate(lo)
    ensures CombineSurrogates(hi, lo) as int == n
  {
    var m := n - 0x10000;
    hi := 0xD800 + m / 0x400;
    lo := 0xDC00 + m % 0x400;
    assert m == m / 0x400 * 0x400 + m % 0x400;
  }

  lemma ParseEscapePair(hi: nat, lo: nat, rest: string)
    requires IsHighSurrogate(hi) && IsLowSurrogate(lo)
    ensures ParseEscape(['u'] + Hex4(hi) + ['\\', 'u'] + Hex4(lo) + rest) == Some((CombineSurrogates(hi, lo), rest))
  {
    var tail := Hex4(lo) + rest;
    var u := Hex4(hi) + (['\\', 'u'] + tail);
    var s := ['u'] + Hex4(hi) + ['\\', 'u'] + Hex4(lo) + rest;
    assert s[1..] == u;
    ReadHex4Written(hi, ['\\', 'u'] + tail);
    assert u[4] == '\\' && u[5] == 'u';
    assert u[6..] == tail;
    ReadHex4Written(lo, rest);
    assert tail[4..] == rest;
    assert u[10..] == rest;
  }

  /** Every escape the printer writes is read back as the character it stands for. */
  lemma ParseEscapeWritten(st: Style, c: char, rest: string)
    requires EscapeChar(st, c)[0] == '\\'
    ensures ParseEscape(EscapeChar(st, c)[1..] + rest) == Some((c, rest))
  {
    var n := c as int;
    var e := EscapeChar(st, c);
    if c == '"' || c == '\\' || n == 8 || n == 12 || c == '\n' || c == '\r' || c == '\t' {
      var s := e[1..] + rest;
      assert |e| == 2 && s[0] == e[1] && s[1..] == rest;
    } else if n < 0x10000 {
      assert e[1..] == ['u'] + Hex4(n);
      ParseEscapeUnit(n, rest);
    } else {
      var hi, lo := SurrogateSplit(n);
      assert e[1..] == ['u'] + Hex4(hi) + ['\\', 'u'] + Hex4(lo);
      ParseEscapePair(hi, lo, rest);
    }
  }

  lemma ParseStringStep(st: Style, c: char, rest: string, cs: string, after: string)
    requires ParseString(rest) == Some((cs, after))
    ensures ParseString(EscapeChar(st, c) + rest) == Some(([c] + cs, after))
  {
    var e := EscapeChar(st, c);
    var s := e + rest;
    if e == [c] {
      assert s[0] == c && s[1..] == rest;
    } else {
      assert e[0] == '\\';
      assert s[0] == '\\' && s[1..] == e[1..] + rest;
      ParseEscapeWritten(st, c, rest);
    }
  }

  /** The characters of a string as printed, with the closing quote, are read back whole, whatever follows. */
  lemma {:induction false} ParseQuoted(st: Style, s: string, t: string)
    ensures ParseString(EmitChars(st, s, "\"" + t)) == Some((s, t))
    decreases |s|
  {
    if s == [] {
      assert ("\"" + t)[1..] == t;
    } else {
      ParseQuoted(st, s[1..], t);
      ParseStringStep(st, s[0], EmitChars(st, s[1..], "\"" + t), s[1..], t);
      assert [s[0]] + s[1..] == s;
    }
  }

  // ---------------------------------------------------------------
  // Numbers
  // ---------------------------------------------------------------

  lemma NumSpanLiteral(lit: string, t: string)
    requires forall k :: 0 <= k < |lit| ==> IsNumChar(lit[k])
    requires Delimited(t)
    ensures NumSpan(lit + t) == |lit|
    decreases |lit|
  {
    if lit == [] {
      assert lit + t == t;
    } else {
      assert (lit + t)[1..] == lit[1..] + t;
      NumSpanLiteral(lit[1..], t);
    }
  }

  lemma NumberLiteralNonEmpty(lit: string)
    requires NumberLiteral(lit)
    ensures lit != [] && (lit[0] == '-' || IsDigit(lit[0]))
  {
  }

  // ---------------------------------------------------------------
  // Values
  // ---------------------------------------------------------------

  /** Printed text starts with a character that begins a value. */
  lemma EmitStart(st: Style, v: JsValue, k: string)
    requires WellFormed(v)
    ensures var s := Emit(st, v, k); s != [] && !IsWs(s[0]) && s[0] != ']' && s[0] != '}'
  {
    if v.JNum? { NumberLiteralNonEmpty(v.literal); }
  }

  lemma ItemsStart(st: Style, items: seq<JsValue>, k: string)
    requires items != [] && WellFormed(items[0])
    ensures var s := EmitItems(st, items, k); s != [] && !IsWs(s[0]) && s[0] != ']'
  {
    if |items| == 1 { EmitStart(st, items[0], k); }
    else { EmitStart(st, items[0], ItemSep(st) + EmitItems(st, items[1..], k)); }
  }

  lemma CollapseDistinct(pairs: seq<Field>)
    requires DistinctKeys(pairs)
    ensures Collapse(pairs) == pairs
    decreases |pairs|
  {
    if pairs != [] {
      var init := pairs[..|pairs| - 1];
      var last := pairs[|pairs| - 1];
      assert DistinctKeys(init);
      CollapseDistinct(init);
      PutFresh(init, last);
      assert init + [last] == pairs;
    }
  }

  lemma PutFresh(fields: seq<Field>, f: Field)
    requires forall i :: 0 <= i < |fields| ==> fields[i].key != f.key
    ensures Put(fields, f) == fields + [f]
    decreases |fields|
  {
    if fields != [] {
      PutFresh(fields[1..], f);
      assert [fields[0]] + (fields[1..] + [f]) == fields + [f];
    }
  }

  // One-step facts about the parser, so that the inductions below unfold nothing themselves.

  lemma StepKeyword(word: string, v: JsValue, t: string)
    requires (word == "null" && v == JNull) || (word == "true" && v == JBool(true)) || (word == "false" && v == JBool(false))
    ensures ParseValue(word + t) == Some((v, t))
  {
    var s := word + t;
    assert s[0] == word[0];
    assert s[..|word|] == word && s[|word|..] == t;
  }

  lemma StepNumber(lit: string, t: string)
    requires ValidNumber(lit) && Delimited(t)
    ensures ParseValue(lit + t) == Some((JNum(lit), t))
  {
    var s := lit + t;
    NumberLiteralNonEmpty(lit);
    assert s[0] == lit[0];
    NumSpanLiteral(lit, t);
    assert s[..|lit|] == lit && s[|lit|..] == t;
  }

  lemma StepString(r: string, str: string, t: string)
    requires ParseString(r) == Some((str, t))
    ensures ParseValue("\"" + r) == Some((JStr(str), t))
  {
    assert ("\"" + r)[1..] == r;
  }

  lemma StepArray(r: string)
    ensures ParseValue("[" + r) == ParseArray(r)
  {
    assert ("[" + r)[1..] == r;
  }

  lemma StepObject(r: string)
    ensures ParseValue("{" + r) == ParseObject(r)
  {
    assert ("{" + r)[1..] == r;
  }

  lemma StepArrayEmpty(t: string)
    ensures ParseArray("]" + t) == Some((JArr([]), t))
  {
    assert ("]" + t)[1..] == t;
  }

  lemma StepArrayItems(s: string, items: seq<JsValue>, t: string)
    requires s != [] && !IsWs(s[0]) && s[0] != ']'
    requires ParseItems(s) == Some((items, t))
    ensures ParseArray(s) == Some((JArr(items), t))
  {
  }

  lemma StepObjectEmpty(t: string)
    ensures ParseObject("}" + t) == Some((JObj([]), t))
  {
    assert ("}" + t)[1..] == t;
  }

  lemma StepObjectFields(s: string, fields: seq<Field>, t: string)
    requires s != [] && s[0] == '"'
    requires ParseFields(s) == Some((fields, t))
    ensures ParseObject(s) == Some((JObj(Collapse(fields)), t))
  {
  }

  lemma StepItemsLast(s: string, v: JsValue, t: string)
    requires ParseValue(s) == Some((v, "]" + t))
    ensures ParseItems(s) == Some(([v], t))
  {
    assert SkipWs("]" + t) == "]" + t;
    assert ("]" + t)[1..] == t;
  }

  lemma StepItemsMore(s: string, v: JsValue, r: string, vs: seq<JsValue>, t: string)
    requires ParseValue(s) == Some((v, "," + r))
    requires ParseItems(r) == Some((vs, t))
    ensures ParseItems(s) == Some(([v] + vs, t))
  {
    assert SkipWs("," + r) == "," + r;
    assert ("," + r)[1..] == r;
  }

  /** What `ParseFields` does once a member has been read and `m` follows it. */
  function FieldsTail(f: Field, m: string): Option<(seq<Field>, string)>
  {
    var d := SkipWs(m);
    if d == [] then None
    else if d[0] == '}' then Some(([f], d[1..]))
    else if d[0] == ',' then
      match ParseFields(d[1..])
      case None => None
      case Some((fs, after)) => Some(([f] + fs, after))
    else None
  }

  lemma StepFieldsHead(r: string, key: string, x: string, v: JsValue, m: string)
    requires ParseString(r) == Some((key, ":" + x))
    requires ParseValue(x) == Some((v, m))
    ensures ParseFields("\"" + r) == FieldsTail(Field(key, v), m)
  {
    assert ("\"" + r)[1..] == r;
    assert SkipWs(":" + x) == ":" + x;
    assert (":" + x)[1..] == x;
  }

  lemma StepFieldsEnd(f: Field, t: string)
    ensures FieldsTail(f, "}" + t) == Some(([f], t))
  {
    assert SkipWs("}" + t) == "}" + t;
    assert ("}" + t)[1..] == t;
  }

  lemma StepFieldsNext(f: Field, x: string, fs: seq<Field>, t: string)
    requires ParseFields(x) == Some((fs, t))
    ensures FieldsTail(f, "," + x) == Some(([f] + fs, t))
  {
    assert SkipWs("," + x) == "," + x;
    assert ("," + x)[1..] == x;
  }

  // ---------------------------------------------------------------
  // The induction
  // ---------------------------------------------------------------

  /** The round trip at the level of the parser: printed text is read back, and what follows is left untouched. */
  lemma {:induction false} ParseEmitted(st: Style, v: JsValue, t: string)
    requires WellFormed(v) && Delimited(t)
    ensures ParseValue(Emit(st, v, t)) == Some((v, t))
    decreases v, 0
  {
    match v
    case JNull => StepKeyword("null", v, t);
    case JBool(b) => if b { StepKeyword("true", v, t); } else { StepKeyword("false", v, t); }
    case JNum(lit) => StepNumber(lit, t);
    case JStr(str) =>
      ParseQuoted(st, str, t);
      StepString(EmitChars(st, str, "\"" + t), str, t);
    case JArr(items) =>
      var inner := EmitItems(st, items, "]" + t);
      StepArray(inner);
      if items == [] {
        StepArrayEmpty(t);
      } else {
        ItemsStart(st, items, "]" + t);
        ParseEmittedItems(st, items, t);
        StepArrayItems(inner, items, t);
      }
    case JObj(fields) =>
      var inner := EmitFields(st, fields, "}" + t);
      StepObject(inner);
      if fields == [] {
        StepObjectEmpty(t);
      } else {
        ParseEmittedFields(st, fields, t);
        StepObjectFields(inner, fields, t);
        CollapseDistinct(fields);
      }
  }

  lemma {:induction false} ParseEmittedItems(st: Style, items: seq<JsValue>, t: string)
    requires items != []
    requires forall i :: 0 <= i < |items| ==> WellFormed(items[i])
    ensures ParseItems(EmitItems(st, items, "]" + t)) == Some((items, t))
    decreases items, 1
  {
    var s := EmitItems(st, items, "]" + t);
    if |items| == 1 {
      ParseEmitted(st, items[0], "]" + t);
      StepItemsLast(s, items[0], t);
      assert [items[0]] == items;
    } else {
      var rest := items[1..];
      var x := EmitItems(st, rest, "]" + t);
      var gap := ItemSep(st)[1..];
      SeparatorShape(st);
      var m := ItemSep(st) + x;
      assert s == Emit(st, items[0], m);
      assert m == "," + (gap + x);
      ParseEmitted(st, items[0], m);
      ParseEmittedItems(st, rest, t);
      ParseItemsLead(gap, x);
      StepItemsMore(s, items[0], gap + x, rest, t);
      assert [items[0]] + rest == items;
    }
  }

  /** The text the printer puts after the first member of `fields`. */
  function AfterFirst(st: Style, fields: seq<Field>, k: string): string
    requires fields != []
  {
    if |fields| == 1 then k else ItemSep(st) + EmitFields(st, fields[1..], k)
  }

  /** The first printed member, key and value, is read back, and the parser goes on with the text after it. */
  lemma ParseEmittedMember(st: Style, fields: seq<Field>, k: string)
    requires fields != []
    requires ParseValue(Emit(st, fields[0].value, AfterFirst(st, fields, k))) == Some((fields[0].value, AfterFirst(st, fields, k)))
    ensures ParseFields(EmitFields(st, fields, k)) == FieldsTail(fields[0], AfterFirst(st, fields, k))
  {
    var f := fields[0];
    var m := AfterFirst(st, fields, k);
    var keyGap := KeySep(st)[1..];
    var e := Emit(st, f.value, m);
    var x := keyGap + e;
    SeparatorShape(st);
    assert EmitFields(st, fields, k) == "\"" + EmitChars(st, f.key, "\"" + KeySep(st) + e);
    assert "\"" + KeySep(st) + e == "\"" + (":" + x);
    ParseQuoted(st, f.key, ":" + x);
    ParseValueLead(keyGap, e);
    StepFieldsHead(EmitChars(st, f.key, "\"" + (":" + x)), f.key, x, f.value, m);
  }

  /** A printed member followed by a separator and the members after it. */
  lemma StepFieldsMore(st: Style, fields: seq<Field>, t: string)
    requires |fields| > 1
    requires ParseValue(Emit(st, fields[0].value, AfterFirst(st, fields, "}" + t))) == Some((fields[0].value, AfterFirst(st, fields, "}" + t)))
    requires ParseFields(EmitFields(st, fields[1..], "}" + t)) == Some((fields[1..], t))
    ensures ParseFields(EmitFields(st, fields, "}" + t)) == Some((fields, t))
  {
    var f := fields[0];
    var y := EmitFields(st, fields[1..], "}" + t);
    var gap := ItemSep(st)[1..];
    ParseEmittedMember(st, fields, "}" + t);
    SeparatorSplit(st, y);
    ParseFieldsLead(gap, y);
    StepFieldsNext(f, gap + y, fields[1..], t);
    assert [f] + fields[1..] == fields;
  }

  lemma {:induction false} ParseEmittedFields(st: Style, fields: seq<Field>, t: string)
    requires fields != []
    requires forall i :: 0 <= i < |fields| ==> WellFormed(fields[i].value)
    ensures ParseFields(EmitFields(st, fields, "}" + t)) == Some((fields, t))
    decreases fields, 1
  {
    ParseEmitted(st, fields[0].value, AfterFirst(st, fields, "}" + t));
    if |fields| == 1 {
      ParseEmittedMember(st, fields, "}" + t);
      StepFieldsEnd(fields[0], t);
      assert [fields[0]] == fields;
    } else {
      ParseEmittedFields(st, fields[1..], t);
      StepFieldsMore(st, fields, t);
    }
  }

  /** `json.loads(json.dumps(v)) == v`, and `JSON.parse`/`json.loads` of `JSON.stringify(v)` likewise. */
  lemma RoundTrip(st: Style, v: JsValue)
    requires WellFormed(v)
    ensures Loads(Print(st, v)) == Some(v)
  {
    ParseEmitted(st, v, []);
  }
}
