/**
 * The home screen's "get portfolio" action: the ticker field is turned into a
 * list, two empty-input exits raise an alert, and otherwise the recommendation
 * call runs and its outcome lands in the screen state.
 */
module HomeScreen {
  import opened Wrappers
  import opened Text
  import opened Json
  import opened Http
  import opened AuthService
  import opened PortfolioService

  /** A parsed ticker: not empty, no surrounding whitespace, no comma. */
  predicate IsTicker(t: string)
  {
    t != [] && !IsJsSpace(t[0]) && !IsJsSpace(t[|t| - 1]) && forall k :: 0 <= k < |t| ==> t[k] != ','
  }

  /** `.map(t => t.trim()).filter(t => t)`: each piece trimmed, empty results dropped, order kept. */
  function TrimAndDrop(pieces: seq<string>): (r: seq<string>)
    ensures |r| <= |pieces|
    decreases |pieces|
  {
    if pieces == [] then []
    else
      var t := JsTrim(pieces[0]);
      (if t == [] then [] else [t]) + TrimAndDrop(pieces[1..])
  }

  /** Every kept string is a piece, trimmed, and not empty. */
  lemma {:induction false} TrimAndDropPieces(pieces: seq<string>)
    ensures forall t :: t in TrimAndDrop(pieces) ==> t != [] && exists p :: p in pieces && t == JsTrim(p)
    decreases |pieces|
  {
    if pieces != [] {
      TrimAndDropPieces(pieces[1..]);
      var t := JsTrim(pieces[0]);
      assert TrimAndDrop(pieces) == (if t == [] then [] else [t]) + TrimAndDrop(pieces[1..]);
      forall u | u in TrimAndDrop(pieces) ensures u != [] && exists p :: p in pieces && u == JsTrim(p) {
        if u !in TrimAndDrop(pieces[1..]) {
          assert u == t && pieces[0] in pieces;
        } else {
          var p :| p in pieces[1..] && u == JsTrim(p);
          assert p in pieces;
        }
      }
    }
  }

  /** The kept strings of a non-empty list: those of its head, then those of its tail. */
  function Kept(piece: string): (r: seq<string>)
    ensures |r| <= 1
  {
    var t := JsTrim(piece);
    if t == [] then [] else [t]
  }

  lemma TrimAndDropCons(p: seq<string>)
    requires p != []
    ensures TrimAndDrop(p) == Kept(p[0]) + TrimAndDrop(p[1..])
  {
  }

  lemma {:induction false} TrimAndDropAppend(p: seq<string>, q: seq<string>)
    ensures TrimAndDrop(p + q) == TrimAndDrop(p) + TrimAndDrop(q)
    decreases |p|
  {
    if p == [] {
      assert p + q == q;
    } else {
      var pq := p + q;
      assert pq[0] == p[0];
      assert pq[1..] == p[1..] + q;
      TrimAndDropCons(pq);
      TrimAndDropCons(p);
      TrimAndDropAppend(p[1..], q);
      var h := Kept(p[0]);
      AppendAssoc(h, TrimAndDrop(p[1..]), TrimAndDrop(q));
    }
  }

  /** `tickers.split(',').map(t => t.trim()).filter(t => t)` */
  function ParseTickers(input: string): seq<string>
  {
    TrimAndDrop(Split(input, ','))
  }

  /** Every parsed ticker is non-empty, trimmed and comma-free; there are at most one more than there are commas. */
  lemma TickersAreClean(input: string)
    ensures forall t :: t in ParseTickers(input) ==> IsTicker(t) && JsTrim(t) == t
    ensures |ParseTickers(input)| <= Count(input, ',') + 1
  {
    SplitCount(input, ',');
    SplitPiecesFree(input, ',');
    TrimAndDropPieces(Split(input, ','));
    forall t | t in ParseTickers(input) ensures IsTicker(t) && JsTrim(t) == t {
      var p :| p in Split(input, ',') && t == JsTrim(p);
      TrimIdempotent(p, IsJsSpace);
      forall k | 0 <= k < |t| ensures t[k] != ',' {
        assert t[k] in t;
      }
    }
  }

  /** Parsing text joined by a comma is parsing each side: order is kept and duplicates survive. */
  lemma TickersAppend(a: string, b: string)
    ensures ParseTickers(a + ([','] + b)) == ParseTickers(a) + ParseTickers(b)
  {
    SplitAppend(a, b, ',');
    TrimAndDropAppend(Split(a, ','), Split(b, ','));
  }

  /** Text without a comma gives its trimmed self, or nothing when that is empty. */
  lemma TickersOnePiece(s: string)
    requires forall k :: 0 <= k < |s| ==> s[k] != ','
    ensures ParseTickers(s) == if JsTrim(s) == [] then [] else [JsTrim(s)]
  {
    SplitNone(s, ',');
    assert [s][1..] == [];
  }

  /** Text made of commas and whitespace only. */
  predicate Blank(s: string)
  {
    forall k :: 0 <= k < |s| ==> s[k] == ',' || IsJsSpace(s[k])
  }

  /** Text around a comma is blank exactly when both sides are. */
  lemma BlankAround(a: string, b: string)
    ensures Blank(a + ([','] + b)) <==> Blank(a) && Blank(b)
  {
    var s := a + ([','] + b);
    if Blank(s) {
      forall k | 0 <= k < |a| ensures a[k] == ',' || IsJsSpace(a[k]) {
        assert a[k] == s[k];
      }
      forall k | 0 <= k < |b| ensures b[k] == ',' || IsJsSpace(b[k]) {
        assert b[k] == s[k + |a| + 1];
      }
    }
  }

  /** The first comma-free piece parses to nothing exactly when it is blank. */
  lemma TickersFirstPiece(a: string, b: string)
    requires forall k :: 0 <= k < |a| ==> a[k] != ','
    ensures ParseTickers(a + ([','] + b)) == [] <==> Blank(a) && ParseTickers(b) == []
  {
    TickersAppend(a, b);
    TickersOnePiece(a);
    TrimEmpty(a, IsJsSpace);
  }

  /** Parsing gives nothing exactly when the input is only commas and whitespace. */
  lemma {:induction false} TickersBlank(s: string)
    ensures ParseTickers(s) == [] <==> Blank(s)
    decreases |s|
  {
    var i := IndexOf(s, ',');
    if i == |s| {
      TickersOnePiece(s);
      TrimEmpty(s, IsJsSpace);
    } else {
      var a := s[..i];
      var b := s[i + 1..];
      assert s == a + ([','] + b);
      TickersFirstPiece(a, b);
      BlankAround(a, b);
      TickersBlank(b);
    }
  }

  /** The text of an alert: a literal, or the `message` of a runtime error (its wording is the engine's). */
  datatype Message = Literal(text: string) | MessageOf(error: JsError)

  datatype Alert = Alert(title: string, message: Message)

  /** `error.message`: for a thrown `new Error(m)` that is `m`. */
  function ErrorMessage(e: JsError): (m: Message)
    ensures e.Error? ==> m == Literal(e.message)
  {
    if e.Error? then Literal(e.message) else MessageOf(e)
  }

  const NoTickerAlert := Alert("Error", Literal("Please enter at least one ticker."))
  const BadTickersAlert := Alert("Error", Literal("Please enter valid tickers."))

  /**
   * The screen's state hooks. `portfolio` and `projectedProfit` start as `null`;
   * None stands for `undefined`. `alerts` lists the alerts shown, oldest first.
   */
  datatype View = View(
    tickers: string, period: string, budget: string,
    portfolio: Option<JsValue>, projectedProfit: Option<JsValue>,
    loading: bool, alerts: seq<Alert>)

  /**
   * What the `try`/`catch`/`finally` part of `getPortfolio` does to the state
   * once the service call has settled: the results on success, an alert
   * otherwise, and `loading` false either way.
   */
  function ShowOutcome(v: View, result: Result<JsValue, JsError>): View
    requires result.Ok? ==> result.value.JObj?
  {
    match result
    case Ok(data) =>
      v.(portfolio := JsProp(data, "recommendation"), projectedProfit := JsProp(data, "projected_profit"), loading := false)
    case Err(e) =>
      v.(loading := false, alerts := v.alerts + [Alert("Error", ErrorMessage(e))])
  }

  /** The state after the service call, and the request it sends, once a non-empty ticker list is in hand. */
  function SubmitEffect(v: View, token: Option<JsValue>, tickerArray: seq<string>, budgetValue: JsValue, fetched: Fetched): (View, Request)
  {
    (ShowOutcome(v, ClassifyRecommendation(fetched)), RecommendationRequest(token, tickerArray, v.period, budgetValue))
  }

  /**
   * What `getPortfolio` does to the state, and the request it sends if any,
   * given the stored token, the number `parseFloat(budget) || 0` gives, and
   * what the service call resolves to.
   */
  function GetPortfolioEffect(v: View, token: Option<JsValue>, budgetValue: JsValue, fetched: Fetched): (View, Option<Request>)
  {
    if v.tickers == [] then
      (v.(alerts := v.alerts + [NoTickerAlert]), None)
    else
      var tickerArray := ParseTickers(v.tickers);
      if tickerArray == [] then
        (v.(loading := false, alerts := v.alerts + [BadTickersAlert]), None)
      else
        var (w, request) := SubmitEffect(v.(loading := true), token, tickerArray, budgetValue, fetched);
        (w, Some(request))
  }

  /** An empty ticker field: the first alert, no call, and `loading` and the results untouched. */
  lemma NoTickerExit(v: View, token: Option<JsValue>, budgetValue: JsValue, fetched: Fetched)
    requires v.tickers == []
    ensures var (w, sent) := GetPortfolioEffect(v, token, budgetValue, fetched);
      sent == None && w == v.(alerts := v.alerts + [NoTickerAlert])
  {
  }

  /** A field of commas and whitespace only: the second alert, no call, `loading` false, results untouched. */
  lemma BlankTickersExit(v: View, token: Option<JsValue>, budgetValue: JsValue, fetched: Fetched)
    requires v.tickers != [] && Blank(v.tickers)
    ensures var (w, sent) := GetPortfolioEffect(v, token, budgetValue, fetched);
      sent == None && w == v.(loading := false, alerts := v.alerts + [BadTickersAlert])
  {
    TickersBlank(v.tickers);
  }

  /**
   * Otherwise the call is made with the parsed, non-empty list; on success the two
   * results are taken from the reply, on failure they stay and an alert shows
   * `error.message`; `loading` ends false either way.
   */
  lemma CallMade(v: View, token: Option<JsValue>, budgetValue: JsValue, fetched: Fetched)
    requires !Blank(v.tickers)
    ensures var (w, sent) := GetPortfolioEffect(v, token, budgetValue, fetched);
      ParseTickers(v.tickers) != []
      && sent == Some(RecommendationRequest(token, ParseTickers(v.tickers), v.period, budgetValue))
      && !w.loading
      && w.tickers == v.tickers && w.period == v.period && w.budget == v.budget
      && (ClassifyRecommendation(fetched).Ok? ==>
            w.portfolio == JsProp(ClassifyRecommendation(fetched).value, "recommendation")
            && w.projectedProfit == JsProp(ClassifyRecommendation(fetched).value, "projected_profit")
            && w.alerts == v.alerts)
      && (ClassifyRecommendation(fetched).Err? ==>
            w.portfolio == v.portfolio && w.projectedProfit == v.projectedProfit
            && w.alerts == v.alerts + [Alert("Error", ErrorMessage(ClassifyRecommendation(fetched).error))])
  {
    TickersBlank(v.tickers);
    assert v.tickers != [];
  }

  /** The service is only called with a non-empty list of clean tickers, and `loading` is false at the end of every call path. */
  lemma CallsOnlyWithTickers(v: View, token: Option<JsValue>, budgetValue: JsValue, fetched: Fetched)
    ensures var (w, sent) := GetPortfolioEffect(v, token, budgetValue, fetched);
      (sent.Some? ==> ParseTickers(v.tickers) != [] && forall t :: t in ParseTickers(v.tickers) ==> IsTicker(t))
      && (v.tickers != [] ==> !w.loading)
  {
    TickersAreClean(v.tickers);
  }

  class Screen {
    var tickers: string
    var period: string
    var budget: string
    var portfolio: Option<JsValue>
    var projectedProfit: Option<JsValue>
    var loading: bool
    var alerts: seq<Alert>

    function State(): View
      reads this
    {
      View(tickers, period, budget, portfolio, projectedProfit, loading, alerts)
    }

    constructor()
      ensures State() == View("", "1y", "", Some(JNull), Some(JNull), false, [])
    {
      tickers := "";
      period := "1y";
      budget := "";
      portfolio := Some(JNull);
      projectedProfit := Some(JNull);
      loading := false;
      alerts := [];
    }

    /** `getPortfolio`; returns the request sent, if any. */
    method GetPortfolio(store: TokenStore, budgetValue: JsValue, fetched: Fetched) returns (sent: Option<Request>)
      modifies this
      ensures (State(), sent) == GetPortfolioEffect(old(State()), store.authToken, budgetValue, fetched)
    {
      if tickers == [] {
        alerts := alerts + [NoTickerAlert];
        return None;
      }
      loading := true;
      var tickerArray := ParseTickers(tickers);
      if |tickerArray| == 0 {
        alerts := alerts + [BadTickersAlert];
        loading := false;
        return None;
      }
      var request, result := GetRecommendation(store, tickerArray, period, budgetValue, fetched);
      sent := Some(request);
      Settle(result);
    }

    /**
     * The rest of the `try` block after the service call resolved (the two
     * setters), the `catch` block (the alert) and the `finally` block (loading ends).
     */
    method Settle(result: Result<JsValue, JsError>)
      requires result.Ok? ==> result.value.JObj?
      modifies this
      ensures State() == ShowOutcome(old(State()), result)
    {
      match result {
        case Ok(data) =>
          portfolio := JsProp(data, "recommendation");
          projectedProfit := JsProp(data, "projected_profit");
        case Err(e) =>
          alerts := alerts + [Alert("Error", ErrorMessage(e))];
      }
      // the `finally` block
      loading := false;
    }
  }
}
