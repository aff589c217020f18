/**
 * What the parser can return: every value `Loads` accepts is well-formed
 * (numbers are valid literals, object keys are distinct), so printing a decoded
 * value and reading it back gives the same value.
 */
module JsonDecoded {
  import opened Wrappers
  import opened Json
  import opened JsonCodec
  import JsonRoundTrip

  predicate ValuesWellFormed(fields: seq<Field>)
  {
    forall i :: 0 <= i < |fields| ==> WellFormed(fields[i].value)
  }

  /** Inserting into a dictionary adds `f` and no other member. */
  lemma PutMembers(fields: seq<Field>, f: Field)
    ensures f in Put(fields, f)
    ensures forall g :: g in Put(fields, f) ==> g == f || g in fields
    decreases |fields|
  {
    if fields != [] && fields[0].key != f.key {
      PutMembers(fields[1..], f);
    }
  }

  lemma DistinctTail(fields: seq<Field>)
    requires fields != [] && DistinctKeys(fields)
    ensures DistinctKeys(fields[1..])
    ensures forall g :: g in fields[1..] ==> g.key != fields[0].key
  {
    forall i, j | 0 <= i < j < |fields[1..]| ensures fields[1..][i].key != fields[1..][j].key {
      assert fields[1..][i] == fields[i + 1] && fields[1..][j] == fields[j + 1];
    }
    forall g | g in fields[1..] ensures g.key != fields[0].key {
      var m :| 0 <= m < |fields[1..]| && fields[1..][m] == g;
      assert fields[m + 1] == g;
    }
  }

  lemma DistinctCons(g: Field, rest: seq<Field>)
    requires DistinctKeys(rest)
    requires forall h :: h in rest ==> h.key != g.key
    ensures DistinctKeys([g] + rest)
  {
    var r := [g] + rest;
    forall i, j | 0 <= i < j < |r| ensures r[i].key != r[j].key {
      assert r[j] == rest[j - 1];
      if i > 0 { assert r[i] == rest[i - 1]; }
    }
  }

  /** Inserting into a dictionary keeps its keys distinct. */
  lemma {:induction false} PutDistinct(fields: seq<Field>, f: Field)
    requires DistinctKeys(fields)
    ensures DistinctKeys(Put(fields, f))
    decreases |fields|
  {
    if fields == [] {
    } else if fields[0].key == f.key {
      DistinctTail(fields);
      DistinctCons(f, fields[1..]);
    } else {
      DistinctTail(fields);
      PutDistinct(fields[1..], f);
      PutMembers(fields[1..], f);
      DistinctCons(fields[0], Put(fields[1..], f));
    }
  }

  /** Inserting a well-formed member into well-formed members. */
  lemma PutWellFormed(fields: seq<Field>, f: Field)
    requires DistinctKeys(fields) && ValuesWellFormed(fields) && WellFormed(f.value)
    ensures DistinctKeys(Put(fields, f)) && ValuesWellFormed(Put(fields, f))
  {
    PutDistinct(fields, f);
    PutMembers(fields, f);
    var r := Put(fields, f);
    forall i | 0 <= i < |r| ensures WellFormed(r[i].value) {
      assert r[i] in r;
      if r[i] != f {
        var k :| 0 <= k < |fields| && fields[k] == r[i];
      }
    }
  }

  /** The dictionary built from well-formed pairs is an object `WellFormed` accepts. */
  lemma {:induction false} CollapseWellFormed(pairs: seq<Field>)
    requires ValuesWellFormed(pairs)
    ensures DistinctKeys(Collapse(pairs)) && ValuesWellFormed(Collapse(pairs))
    decreases |pairs|
  {
    if pairs != [] {
      var init := pairs[..|pairs| - 1];
      assert ValuesWellFormed(init) by {
        forall i | 0 <= i < |init| ensures WellFormed(init[i].value) {
          assert init[i] == pairs[i];
        }
      }
      CollapseWellFormed(init);
      PutWellFormed(Collapse(init), pairs[|pairs| - 1]);
    }
  }

  lemma ParseNumberWellFormed(s: string)
    requires ParseNumber(s).Some?
    ensures WellFormed(ParseNumber(s).value.0)
  {
    var n := NumSpan(s);
    var lit := s[..n];
    forall k | 0 <= k < |lit| ensures IsNumChar(lit[k]) {
      assert lit[k] == s[k];
    }
  }

  lemma {:induction false} ParseValueWellFormed(s: string)
    requires ParseValue(s).Some?
    ensures WellFormed(ParseValue(s).value.0)
    decreases |s|, 0
  {
    var t := SkipWs(s);
    if t[0] == '[' {
      ParseArrayWellFormed(t[1..]);
    } else if t[0] == '{' {
      ParseObjectWellFormed(t[1..]);
    } else if t[0] !in "ntf\"" {
      ParseNumberWellFormed(t);
    }
  }

  lemma {:induction false} ParseArrayWellFormed(s: string)
    requires ParseArray(s).Some?
    ensures WellFormed(ParseArray(s).value.0)
    decreases |s|, 2
  {
    var t := SkipWs(s);
    if !(t != [] && t[0] == ']') {
      ParseItemsWellFormed(t);
    }
  }

  lemma {:induction false} ParseItemsWellFormed(s: string)
    requires ParseItems(s).Some?
    ensures forall i :: 0 <= i < |ParseItems(s).value.0| ==> WellFormed(ParseItems(s).value.0[i])
    decreases |s|, 1
  {
    var (v, rest) := ParseValue(s).value;
    ParseValueWellFormed(s);
    var t := SkipWs(rest);
    if t[0] == ',' {
      var vs := ParseItems(t[1..]).value.0;
      ParseItemsWellFormed(t[1..]);
      assert ParseItems(s).value.0 == [v] + vs;
    }
  }

  lemma {:induction false} ParseObjectWellFormed(s: string)
    requires ParseObject(s).Some?
    ensures WellFormed(ParseObject(s).value.0)
    decreases |s|, 2
  {
    var t := SkipWs(s);
    if !(t != [] && t[0] == '}') {
      ParseFieldsWellFormed(t);
      CollapseWellFormed(ParseFields(t).value.0);
    }
  }

  lemma {:induction false} ParseFieldsWellFormed(s: string)
    requires ParseFields(s).Some?
    ensures ValuesWellFormed(ParseFields(s).value.0)
    decreases |s|, 1
  {
    var t := SkipWs(s);
    var (key, rest) := ParseString(t[1..]).value;
    var c := SkipWs(rest);
    var (v, rest2) := ParseValue(c[1..]).value;
    ParseValueWellFormed(c[1..]);
    var d := SkipWs(rest2);
    if d[0] == ',' {
      var fs := ParseFields(d[1..]).value.0;
      ParseFieldsWellFormed(d[1..]);
      assert ParseFields(s).value.0 == [Field(key, v)] + fs;
    }
  }

  /** Every value `json.loads` / `JSON.parse` returns satisfies `WellFormed`. */
  lemma LoadsWellFormed(s: string)
    requires Loads(s).Some?
    ensures WellFormed(Loads(s).value)
  {
    ParseValueWellFormed(s);
  }

  /** Decoding, re-encoding in either style and decoding again gives the decoded value back. */
  lemma ReencodeDecoded(s: string, st: Style)
    requires Loads(s).Some?
    ensures Loads(Print(st, Loads(s).value)) == Loads(s)
  {
    LoadsWellFormed(s);
    JsonRoundTrip.RoundTrip(st, Loads(s).value);
  }
}
