/**
 * The client's protected calls: each reads the stored token, always sends it as
 * `Authorization: Bearer <token>` (also when nothing is stored), and reads the
 * reply the same way the credential calls do.
 */
module PortfolioService {
  import opened Wrappers
  import opened Json
  import opened JsonCodec
  import opened Http
  import opened AuthService
  import JsonRoundTrip

  /** `` `Bearer ${token}` ``: the template literal turns a missing item (`null`) into "null". */
  function AuthorizationValue(token: Option<JsValue>): (r: string)
    ensures |r| >= 7 && r[..7] == "Bearer "
    ensures token.None? ==> r == "Bearer null"
    ensures token.Some? ==> r[7..] == JsToString(token.value)
    ensures forall t :: token == Some(JStr(t)) ==> r == "Bearer " + t
  {
    "Bearer " + (match token case None => "null" case Some(v) => JsToString(v))
  }

  /** `{ tickers, period, budget }` */
  function RecommendationBody(tickers: seq<string>, period: string, budget: JsValue): (r: JsValue)
    ensures r.JObj? && DistinctKeys(r.fields) && |r.fields| == 3
    ensures Lookup(r.fields, "tickers") == Some(StringArray(tickers))
    ensures Lookup(r.fields, "period") == Some(JStr(period))
    ensures Lookup(r.fields, "budget") == Some(budget)
    ensures WellFormed(budget) ==> WellFormed(r)
  {
    var fields := [Field("tickers", StringArray(tickers)), Field("period", JStr(period)), Field("budget", budget)];
    LookupMember(fields, 2);
    JObj(fields)
  }

  /** The POST `getRecommendation` sends. */
  function RecommendationRequest(token: Option<JsValue>, tickers: seq<string>, period: string, budget: JsValue): (r: Request)
    ensures r.verb == POST && r.url == ApiBaseUrl + "/api/portfolio"
    ensures Header(r.headers, "Content-Type") == Some("application/json")
    ensures Header(r.headers, "Authorization") == Some(AuthorizationValue(token))
    ensures r.body == Some(JsonBody(RecommendationBody(tickers, period, budget)))
  {
    var body := RecommendationBody(tickers, period, budget);
    Request(POST, ApiBaseUrl + "/api/portfolio",
      [("Content-Type", "application/json"), ("Authorization", AuthorizationValue(token))],
      Some(JsonBody(body)))
  }

  /** The body the server decodes holds the tickers, period and budget unchanged. */
  lemma RecommendationBodyReadBack(token: Option<JsValue>, tickers: seq<string>, period: string, budget: JsValue)
    requires WellFormed(budget)
    ensures Loads(RecommendationRequest(token, tickers, period, budget).body.value) == Some(RecommendationBody(tickers, period, budget))
  {
    JsonRoundTrip.RoundTrip(JsStringify, RecommendationBody(tickers, period, budget));
  }

  /** The GET `getHistory` sends: the Authorization header only, no body. */
  function HistoryRequest(token: Option<JsValue>): (r: Request)
    ensures r.verb == GET && r.url == ApiBaseUrl + "/api/get_history"
    ensures Header(r.headers, "Authorization") == Some(AuthorizationValue(token))
    ensures Header(r.headers, "Content-Type") == None
    ensures r.body == None
  {
    Request(GET, ApiBaseUrl + "/api/get_history", [("Authorization", AuthorizationValue(token))], None)
  }

  /**
   * What `getRecommendation` makes of the reply: the whole decoded data, unchanged,
   * exactly when `data.recommendation` is truthy; otherwise the message is
   * `data.error` when truthy, else 'Failed to fetch recommendation'.
   */
  function ClassifyRecommendation(fetched: Fetched): (r: Result<JsValue, JsError>)
    ensures r.Ok? <==> fetched.Ok? && !fetched.value.JNull? && JsTruthy(JsProp(fetched.value, "recommendation"))
    ensures r.Ok? ==> r.value == fetched.value && r.value.JObj?
    ensures fetched.Err? ==> r == Err(fetched.error)
    ensures fetched == Ok(JNull) ==> r == Err(NullProperty("recommendation"))
    ensures fetched.Ok? && !fetched.value.JNull? && !r.Ok? ==>
      r == Err(Error(ErrorText(JsProp(fetched.value, "error"), "Failed to fetch recommendation")))
  {
    Check(fetched, "recommendation", "Failed to fetch recommendation")
  }

  /**
   * What `getHistory` makes of the reply: `data.history`, unchanged, exactly when it
   * is truthy; otherwise the message is `data.error` when truthy, else
   * 'Failed to load history'.
   */
  function ClassifyHistory(fetched: Fetched): (r: Result<JsValue, JsError>)
    ensures r.Ok? <==> fetched.Ok? && !fetched.value.JNull? && JsTruthy(JsProp(fetched.value, "history"))
    ensures r.Ok? ==> Some(r.value) == JsProp(fetched.value, "history")
    ensures fetched.Err? ==> r == Err(fetched.error)
    ensures fetched == Ok(JNull) ==> r == Err(NullProperty("history"))
    ensures fetched.Ok? && !fetched.value.JNull? && !r.Ok? ==>
      r == Err(Error(ErrorText(JsProp(fetched.value, "error"), "Failed to load history")))
  {
    match Check(fetched, "history", "Failed to load history")
    case Err(e) => Err(e)
    case Ok(data) => Ok(JsProp(data, "history").value)
  }

  /** An empty history list is a success, while an `{error: ...}` reply is a failure carrying the error text. */
  lemma EmptyHistoryIsSuccess(fetched: Fetched, message: string)
    requires fetched == Ok(JObj([Field("history", JArr([]))])) || fetched == Ok(JObj([Field("error", JStr(message))]))
    ensures ClassifyHistory(fetched).Ok? <==> fetched == Ok(JObj([Field("history", JArr([]))]))
    ensures ClassifyHistory(fetched).Ok? ==> ClassifyHistory(fetched).value == JArr([])
    ensures !ClassifyHistory(fetched).Ok? && message != [] ==> ClassifyHistory(fetched) == Err(Error(message))
  {
  }

  /** `getRecommendation`: reads the store (never writes it), sends the request and reads the reply. */
  method GetRecommendation(store: TokenStore, tickers: seq<string>, period: string, budget: JsValue, fetched: Fetched)
    returns (sent: Request, result: Result<JsValue, JsError>)
    ensures sent == RecommendationRequest(store.authToken, tickers, period, budget)
    ensures result == ClassifyRecommendation(fetched)
  {
    var token := GetToken(store);
    sent := RecommendationRequest(token, tickers, period, budget);
    result := ClassifyRecommendation(fetched);
  }

  /** `getHistory`: reads the store (never writes it), sends the request and reads the reply. */
  method GetHistory(store: TokenStore, fetched: Fetched) returns (sent: Request, result: Result<JsValue, JsError>)
    ensures sent == HistoryRequest(store.authToken)
    ensures result == ClassifyHistory(fetched)
  {
    var token := GetToken(store);
    sent := HistoryRequest(token);
    result := ClassifyHistory(fetched);
  }
}
