/**
 * The `portfolio_history` table as the history route reads it: the caller's rows
 * newest first, and each row decoded back into JSON, with the fallbacks for
 * stored text that is not JSON.
 */
module History {
  import opened Wrappers
  import opened Text
  import opened Json
  import opened JsonCodec
  import JsonRoundTrip
  import JsonDecoded

  /** A `portfolio_history` row; None is SQL NULL. `createdAt` is the `CURRENT_TIMESTAMP` text. */
  datatype Row = Row(id: int, userId: int, tickers: Option<string>, period: Option<string>,
                     recommendation: Option<string>, createdAt: string)

  /** `WHERE user_id = ?`: the rows of one user, in table order. */
  function OwnRows(rows: seq<Row>, userId: int): (r: seq<Row>)
    ensures |r| <= |rows|
    ensures forall x :: x in r ==> x in rows && x.userId == userId
    decreases |rows|
  {
    if rows == [] then []
    else (if rows[0].userId == userId then [rows[0]] else []) + OwnRows(rows[1..], userId)
  }

  /** Every row of the user is kept, as often as it occurs, and no other row. */
  lemma {:induction false} OwnRowsCount(rows: seq<Row>, userId: int)
    ensures forall x :: multiset(OwnRows(rows, userId))[x] == if x.userId == userId then multiset(rows)[x] else 0
    decreases |rows|
  {
    if rows != [] {
      OwnRowsCount(rows[1..], userId);
      assert rows == [rows[0]] + rows[1..];
    }
  }

  /** Newest first: `created_at` never increases along the list (text order, as SQLite compares it). */
  predicate NewestFirst(s: seq<Row>)
  {
    forall i, j :: 0 <= i < j < |s| ==> TextLe(s[j].createdAt, s[i].createdAt)
  }

  /** Put `x` after the rows at least as recent as it and before the first older one. */
  function Insert(x: Row, sorted: seq<Row>): (r: seq<Row>)
    ensures multiset(r) == multiset(sorted) + multiset{x}
    decreases |sorted|
  {
    if sorted == [] then [x]
    else if TextLe(x.createdAt, sorted[0].createdAt) then
      assert sorted == [sorted[0]] + sorted[1..];
      [sorted[0]] + Insert(x, sorted[1..])
    else [x] + sorted
  }

  /** `ORDER BY created_at DESC` over rows in table order. */
  function SortNewestFirst(rows: seq<Row>): (r: seq<Row>)
    ensures multiset(r) == multiset(rows)
    decreases |rows|
  {
    if rows == [] then []
    else
      assert rows == [rows[0]] + rows[1..];
      Insert(rows[0], SortNewestFirst(rows[1..]))
  }

  /** Dropping the newest row keeps the order. */
  lemma NewestFirstTail(s: seq<Row>)
    requires s != [] && NewestFirst(s)
    ensures NewestFirst(s[1..])
  {
    var t := s[1..];
    forall i, j | 0 <= i < j < |t| ensures TextLe(t[j].createdAt, t[i].createdAt) {
      assert t[i] == s[i + 1] && t[j] == s[j + 1];
    }
  }

  /** A row at least as recent as every row of a newest-first list can go in front of it. */
  lemma NewestFirstCons(h: Row, rest: seq<Row>)
    requires NewestFirst(rest)
    requires forall j :: 0 <= j < |rest| ==> TextLe(rest[j].createdAt, h.createdAt)
    ensures NewestFirst([h] + rest)
  {
    var r := [h] + rest;
    forall i, j | 0 <= i < j < |r| ensures TextLe(r[j].createdAt, r[i].createdAt) {
      assert r[j] == rest[j - 1];
      if i > 0 { assert r[i] == rest[i - 1]; }
    }
  }

  lemma {:induction false} InsertNewestFirst(x: Row, sorted: seq<Row>)
    requires NewestFirst(sorted)
    ensures NewestFirst(Insert(x, sorted))
    decreases |sorted|
  {
    if sorted == [] {
    } else if TextLe(x.createdAt, sorted[0].createdAt) {
      var s0 := sorted[0];
      var tail := sorted[1..];
      NewestFirstTail(sorted);
      InsertNewestFirst(x, tail);
      var rest := Insert(x, tail);
      forall j | 0 <= j < |rest| ensures TextLe(rest[j].createdAt, s0.createdAt) {
        assert rest[j] in multiset(rest);
        if rest[j] != x {
          assert rest[j] in multiset(tail);
          var m :| 0 <= m < |tail| && tail[m] == rest[j];
          assert sorted[m + 1] == rest[j];
        }
      }
      NewestFirstCons(s0, rest);
    } else {
      TextLeTotal(x.createdAt, sorted[0].createdAt);
      forall j | 0 <= j < |sorted| ensures TextLe(sorted[j].createdAt, x.createdAt) {
        if j > 0 {
          TextLeTrans(sorted[j].createdAt, sorted[0].createdAt, x.createdAt);
        }
      }
      NewestFirstCons(x, sorted);
    }
  }

  lemma {:induction false} SortIsNewestFirst(rows: seq<Row>)
    ensures NewestFirst(SortNewestFirst(rows))
    decreases |rows|
  {
    if rows != [] {
      SortIsNewestFirst(rows[1..]);
      InsertNewestFirst(rows[0], SortNewestFirst(rows[1..]));
    }
  }

  /** `SELECT * FROM portfolio_history WHERE user_id = ? ORDER BY created_at DESC` */
  function SelectHistory(rows: seq<Row>, userId: int): seq<Row>
  {
    SortNewestFirst(OwnRows(rows, userId))
  }

  /** The selection is newest first and holds exactly the user's rows, each as often as the table does. */
  lemma SelectHistoryRows(rows: seq<Row>, userId: int)
    ensures NewestFirst(SelectHistory(rows, userId))
    ensures forall x :: multiset(SelectHistory(rows, userId))[x] == if x.userId == userId then multiset(rows)[x] else 0
    ensures forall x :: x in SelectHistory(rows, userId) ==> x.userId == userId
  {
    SortIsNewestFirst(OwnRows(rows, userId));
    OwnRowsCount(rows, userId);
    forall x | x in SelectHistory(rows, userId) ensures x.userId == userId {
      assert x in multiset(OwnRows(rows, userId));
    }
  }

  /** `[t.strip() for t in text.split(',')]` */
  function StrippedPieces(text: string): (r: JsValue)
    ensures r.JArr? && |r.items| == |Split(text, ',')|
    ensures forall i :: 0 <= i < |r.items| ==> r.items[i] == JStr(PyStrip(Split(text, ',')[i]))
  {
    var pieces := Split(text, ',');
    JArr(seq(|pieces|, i requires 0 <= i < |pieces| => JStr(PyStrip(pieces[i]))))
  }

  /**
   * The `tickers` column read back: `[]` for NULL or empty text, the decoded JSON
   * when it is JSON, and otherwise the comma-separated pieces, stripped.
   */
  function DecodeTickers(column: Option<string>): (r: JsValue)
    ensures column.None? || column == Some([]) ==> r == JArr([])
    ensures column.Some? && column.value != [] && Loads(column.value).Some? ==> r == Loads(column.value).value
    ensures column.Some? && column.value != [] && Loads(column.value).None? ==> r == StrippedPieces(column.value)
  {
    match column
    case None => JArr([])
    case Some(text) =>
      if text == [] then JArr([])
      else
        match Loads(text)
        case Some(v) => v
        case None => StrippedPieces(text)
  }

  /** The `recommendation` column read back: the decoded JSON, or `{}` for NULL, empty or non-JSON text. */
  function DecodeRecommendation(column: Option<string>): (r: JsValue)
    ensures column.Some? && column.value != [] && Loads(column.value).Some? ==> r == Loads(column.value).value
    ensures !(column.Some? && column.value != [] && Loads(column.value).Some?) ==> r == JObj([])
  {
    match column
    case None => JObj([])
    case Some(text) =>
      if text == [] then JObj([])
      else
        match Loads(text)
        case Some(v) => v
        case None => JObj([])
  }

  /** A list `json.dumps` stored comes back equal. */
  lemma StoredTickersComeBack(v: JsValue)
    requires WellFormed(v)
    ensures DecodeTickers(Some(Print(PythonDumps, v))) == v
  {
    JsonRoundTrip.EmitStart(PythonDumps, v, "");
    JsonRoundTrip.RoundTrip(PythonDumps, v);
  }

  /** A recommendation `json.dumps` stored comes back equal. */
  lemma StoredRecommendationComesBack(v: JsValue)
    requires WellFormed(v)
    ensures DecodeRecommendation(Some(Print(PythonDumps, v))) == v
  {
    JsonRoundTrip.EmitStart(PythonDumps, v, "");
    JsonRoundTrip.RoundTrip(PythonDumps, v);
  }

  /** A stripped comma-free piece is its own strip and stays comma-free. */
  lemma StrippedPieceClean(p: string)
    requires forall k :: 0 <= k < |p| ==> p[k] != ','
    ensures PyStrip(PyStrip(p)) == PyStrip(p)
    ensures forall k :: 0 <= k < |PyStrip(p)| ==> PyStrip(p)[k] != ','
  {
    TrimIdempotent(p, IsPySpace);
    var t := PyStrip(p);
    var i := |p| - |TrimStart(p, IsPySpace)|;
    forall k | 0 <= k < |t| ensures t[k] != ',' {
      assert t[k] == p[i + k];
    }
  }

  /** No comma in `s`. */
  predicate CommaFree(s: string)
  {
    forall k :: 0 <= k < |s| ==> s[k] != ','
  }

  /**
   * Non-JSON ticker text gives one string per comma-separated piece (one more
   * than there are commas), each free of commas and of surrounding whitespace.
   */
  lemma TickersFallback(text: string)
    requires text != [] && Loads(text).None?
    ensures var r := DecodeTickers(Some(text));
      r.JArr? && |r.items| == Count(text, ',') + 1
      && forall i :: 0 <= i < |r.items| ==>
           r.items[i].JStr? && PyStrip(r.items[i].s) == r.items[i].s && CommaFree(r.items[i].s)
  {
    var pieces := Split(text, ',');
    SplitCount(text, ',');
    SplitPiecesFree(text, ',');
    var r := StrippedPieces(text);
    forall i | 0 <= i < |r.items|
      ensures r.items[i].JStr? && PyStrip(r.items[i].s) == r.items[i].s && CommaFree(r.items[i].s)
    {
      assert pieces[i] in pieces;
      StrippedPieceClean(pieces[i]);
    }
  }

  /** The period column as `jsonify` writes it: NULL is `null`. */
  function PeriodValue(column: Option<string>): (r: JsValue)
    ensures column.None? <==> r == JNull
    ensures column.Some? ==> r == JStr(column.value)
  {
    match column
    case None => JNull
    case Some(p) => JStr(p)
  }

  /** The members of a history entry, given the six values. */
  function EntryFields(id: JsValue, userId: JsValue, tickers: JsValue, period: JsValue,
                       recommendation: JsValue, createdAt: JsValue): seq<Field>
  {
    [Field("id", id), Field("user_id", userId), Field("tickers", tickers), Field("period", period),
     Field("recommendation", recommendation), Field("created_at", createdAt)]
  }

  /** The history entry of one row. */
  function EntryOf(row: Row): JsValue
  {
    JObj(EntryFields(JNum(IntText(row.id)), JNum(IntText(row.userId)), DecodeTickers(row.tickers),
                     PeriodValue(row.period), DecodeRecommendation(row.recommendation), JStr(row.createdAt)))
  }

  /** The entries the loop appends, one per row, in the rows' order. */
  function Entries(rows: seq<Row>): (r: seq<JsValue>)
    ensures |r| == |rows|
    ensures forall i :: 0 <= i < |rows| ==> r[i] == EntryOf(rows[i])
  {
    seq(|rows|, i requires 0 <= i < |rows| => EntryOf(rows[i]))
  }

  /** One more row gives one more entry at the end. */
  lemma EntriesSnoc(rows: seq<Row>, i: int)
    requires 0 <= i < |rows|
    ensures Entries(rows[..i + 1]) == Entries(rows[..i]) + [EntryOf(rows[i])]
  {
    var a := Entries(rows[..i + 1]);
    var b := Entries(rows[..i]) + [EntryOf(rows[i])];
    assert forall k :: 0 <= k < |a| ==> a[k] == b[k];
  }

  /** `str(n)` of an integer is a JSON number literal: no leading zero, no fraction or exponent. */
  lemma IntTextValid(n: int)
    ensures ValidNumber(IntText(n))
  {
    var d := NatText(if n < 0 then -n else n);
    DigitRunAll(d);
    assert d[|d|..] == [];
    if n < 0 {
      assert IntText(n)[1..] == d;
    }
  }

  /** Both JSON columns read back as well-formed values, whatever text the table holds. */
  lemma DecodedColumnsWellFormed(row: Row)
    ensures WellFormed(DecodeTickers(row.tickers)) && WellFormed(DecodeRecommendation(row.recommendation))
  {
    if row.tickers.Some? && row.tickers.value != [] && Loads(row.tickers.value).Some? {
      JsonDecoded.LoadsWellFormed(row.tickers.value);
    }
    if row.recommendation.Some? && row.recommendation.value != [] && Loads(row.recommendation.value).Some? {
      JsonDecoded.LoadsWellFormed(row.recommendation.value);
    }
  }

  /** Every history entry can be written as JSON and read back: its numbers are literals and its names distinct. */
  lemma EntryWellFormed(row: Row)
    ensures WellFormed(EntryOf(row))
  {
    var x := row;
    IntTextValid(x.id);
    IntTextValid(x.userId);
    DecodedColumnsWellFormed(x);
    EntryFieldsWellFormed(JNum(IntText(x.id)), JNum(IntText(x.userId)), DecodeTickers(x.tickers),
                          PeriodValue(x.period), DecodeRecommendation(x.recommendation), JStr(x.createdAt));
  }

  lemma EntryFieldsWellFormed(id: JsValue, userId: JsValue, tickers: JsValue, period: JsValue,
                              recommendation: JsValue, createdAt: JsValue)
    requires WellFormed(id) && WellFormed(userId) && WellFormed(tickers) && WellFormed(period)
    requires WellFormed(recommendation) && WellFormed(createdAt)
    ensures WellFormed(JObj(EntryFields(id, userId, tickers, period, recommendation, createdAt)))
  {
    EntryFieldsDistinct(id, userId, tickers, period, recommendation, createdAt);
  }

  /** The members of an entry have distinct names. */
  lemma EntryKeysDistinct(row: Row)
    ensures EntryOf(row).JObj? && DistinctKeys(EntryOf(row).fields)
  {
    var x := row;
    EntryFieldsDistinct(JNum(IntText(x.id)), JNum(IntText(x.userId)), DecodeTickers(x.tickers),
                        PeriodValue(x.period), DecodeRecommendation(x.recommendation), JStr(x.createdAt));
  }

  lemma EntryFieldsDistinct(id: JsValue, userId: JsValue, tickers: JsValue, period: JsValue,
                            recommendation: JsValue, createdAt: JsValue)
    ensures DistinctKeys(EntryFields(id, userId, tickers, period, recommendation, createdAt))
  {
    var fields := EntryFields(id, userId, tickers, period, recommendation, createdAt);
    var initials := "iutprc";
    assert forall i :: 0 <= i < |fields| ==> fields[i].key[0] == initials[i];
  }

  /** An entry is a dictionary with one member per column, each holding that column read back. */
  lemma EntryMembers(row: Row)
    ensures EntryOf(row).JObj? && DistinctKeys(EntryOf(row).fields) && |EntryOf(row).fields| == 6
    ensures Lookup(EntryOf(row).fields, "id") == Some(JNum(IntText(row.id)))
    ensures Lookup(EntryOf(row).fields, "user_id") == Some(JNum(IntText(row.userId)))
    ensures Lookup(EntryOf(row).fields, "tickers") == Some(DecodeTickers(row.tickers))
    ensures Lookup(EntryOf(row).fields, "period") == Some(PeriodValue(row.period))
    ensures Lookup(EntryOf(row).fields, "recommendation") == Some(DecodeRecommendation(row.recommendation))
    ensures Lookup(EntryOf(row).fields, "created_at") == Some(JStr(row.createdAt))
  {
    var fields := EntryOf(row).fields;
    EntryKeysDistinct(row);
    LookupMember(fields, 0);
    LookupMember(fields, 1);
    LookupMember(fields, 2);
    LookupMember(fields, 3);
    LookupMember(fields, 4);
    LookupMember(fields, 5);
  }
}
