/**
 * The client and the backend together: what the server reads from the requests
 * the client builds, and what the client makes of the responses the server
 * writes. A response travels as its JSON text; the printing style is left open.
 */
module EndToEnd {
  import opened Wrappers
  import opened Json
  import opened JsonCodec
  import opened Http
  import opened AuthService
  import opened PortfolioService
  import opened HomeScreen
  import opened Gate
  import opened Server
  import JsonRoundTrip
  import Text

  /** The first line of the HTML error page Flask sends (the rest of the page is not modelled). */
  const ErrorPageText := "<!doctype html>"

  /** A response as `fetch` receives it: the status and the body text. */
  function Wire(resp: Response, st: Style): (r: Reply)
    ensures r.Received? && r.status == resp.status
    ensures resp.body.Jsonified? ==> r.text == Print(st, resp.body.value)
  {
    match resp.body
    case Jsonified(v) => Received(resp.status, Print(st, v))
    case ErrorPage => Received(resp.status, ErrorPageText)
  }

  /** The client decodes a well-formed JSON response to the value the server gave `jsonify`. */
  lemma ClientDecodesResponse(resp: Response, st: Style)
    requires resp.body.Jsonified? && WellFormed(resp.body.value)
    ensures Decode(Wire(resp, st)) == Ok(resp.body.value)
  {
    JsonRoundTrip.RoundTrip(st, resp.body.value);
  }

  /** An HTML error page is not JSON: `response.json()` throws. */
  lemma ErrorPageIsBadJson(status: int, st: Style)
    ensures Decode(Wire(Response(status, ErrorPage), st)) == Err(BadJson)
  {
    assert ErrorPageText[0] == '<';
  }

  lemma FailureWellFormed(status: int, message: string)
    ensures WellFormed(Failure(status, message).body.value)
  {
  }

  /**
   * An `{error: message}` response with a non-empty message reaches the user as
   * that message, whatever member the client call tests for success.
   */
  lemma ServerMessageShown(status: int, message: string, st: Style, key: string, fallback: string)
    requires message != [] && key != "error"
    ensures Check(Decode(Wire(Failure(status, message), st)), key, fallback) == Err(Error(message))
  {
    FailureWellFormed(status, message);
    ClientDecodesResponse(Failure(status, message), st);
  }

  /** A new username: the server adds the user and the client's `registerUser` returns true. */
  lemma RegistrationSeen(users: seq<User>, nextId: int, u: string, p: string, hash: string -> string, st: Style)
    requires u != [] && p != [] && FindUser(users, u).None?
    ensures var (resp, after) := RegisterEffect(users, nextId, RegisterRequest(u, p).body.value, hash);
      after == users + [User(nextId, u, hash(p))]
      && ClassifyRegister(Decode(Wire(resp, st))) == Ok(true)
  {
    CredentialsReachServer("/api/register", u, p);
    assert RegisterEffect(users, nextId, RegisterRequest(u, p).body.value, hash).0 == Registered;
    RegisteredSeen(st);
  }

  /** The 201 `register` answers reads as success in `registerUser`. */
  lemma RegisteredSeen(st: Style)
    ensures ClassifyRegister(Decode(Wire(Registered, st))) == Ok(true)
  {
    ClientDecodesResponse(Registered, st);
  }

  /** The body of a credential request reads back, on the server, as the two strings typed in. */
  lemma CredentialsReachServer(path: string, u: string, p: string)
    requires u != [] && p != []
    ensures ReadCredentials(CredentialsRequest(path, u, p).body.value) == Ok((u, p))
  {
  }

  /**
   * A login the server accepts: the client stores the signed token, and the
   * next protected request carries it in a header the gate accepts, as long as
   * the token has no whitespace (a JWT never does).
   */
  lemma LoginTokenAccepted(users: seq<User>, u: string, p: string, verify: (string, string) -> bool,
                           sign: int -> string, st: Style)
    requires u != [] && p != [] && FindUser(users, u).Some? && verify(FindUser(users, u).value.password, p)
    requires Text.IsWord(sign(FindUser(users, u).value.id))
    ensures var token := sign(FindUser(users, u).value.id);
      ClassifyLogin(Decode(Wire(LoginResponse(users, LoginRequest(u, p).body.value, verify, sign), st))) == Ok(JStr(token))
      && ExtractToken(Header(HistoryRequest(Some(JStr(token))).headers, "Authorization")) == Some(token)
  {
    var token := sign(FindUser(users, u).value.id);
    CredentialsReachServer("/api/login", u, p);
    var resp := LoginResponse(users, LoginRequest(u, p).body.value, verify, sign);
    assert resp == Response(200, Jsonified(JObj([Field("token", JStr(token))])));
    ClientDecodesResponse(resp, st);
    BearerCarried(token);
  }

  /** A token without whitespace, stored by the client, is the one the gate takes from either protected request. */
  lemma BearerCarried(token: string)
    requires Text.IsWord(token)
    ensures ExtractToken(Some(AuthorizationValue(Some(JStr(token))))) == Some(token)
  {
    assert AuthorizationValue(Some(JStr(token))) == "Bearer" + " " + token;
    BearerAccepted(" ", token);
  }

  /**
   * Nothing stored: the client still sends `Bearer null`, and the gate takes
   * "null" as the token, so the answer is the 403 for an invalid token.
   */
  lemma MissingTokenRejected(decode: string -> Option<int>)
    requires decode("null") == None
    ensures TokenRequired(Header(HistoryRequest(None).headers, "Authorization"), decode) == Err(TokenInvalid)
  {
    var word := "null";
    assert forall k :: 0 <= k < |word| ==> word[k] in {'n', 'u', 'l'};
    assert AuthorizationValue(None) == "Bearer" + " " + word;
    BearerAccepted(" ", word);
  }

  /** The recommendation body reads back on the server as the screen's tickers, period and budget. */
  lemma RecommendationReachesServer(token: Option<JsValue>, tickers: seq<string>, period: string, budget: JsValue)
    requires WellFormed(budget)
    ensures var input := ReadPortfolioInput(RecommendationRequest(token, tickers, period, budget).body.value);
      (input.Ok? <==> tickers != [])
      && (input.Ok? ==> input.value == PortfolioInput(StringArray(tickers), JStr(period), budget))
      && (input.Err? ==> input == Err(TickersRequired))
  {
    RecommendationBodyReadBack(token, tickers, period, budget);
  }

  /** Whatever the field holds, a request the screen sends passes the server's `tickers` check. */
  lemma ScreenRequestsPassValidation(v: View, token: Option<JsValue>, budgetValue: JsValue, fetched: Fetched)
    requires WellFormed(budgetValue)
    ensures var sent := GetPortfolioEffect(v, token, budgetValue, fetched).1;
      sent.Some? ==> ReadPortfolioInput(sent.value.body.value)
                     == Ok(PortfolioInput(StringArray(ParseTickers(v.tickers)), JStr(v.period), budgetValue))
  {
    var sent := GetPortfolioEffect(v, token, budgetValue, fetched).1;
    if sent.Some? {
      CallsOnlyWithTickers(v, token, budgetValue, fetched);
      RecommendationReachesServer(token, ParseTickers(v.tickers), v.period, budgetValue);
    }
  }

  /**
   * What `getHistory` makes of the history route's answer: the caller's entries,
   * newest first, the empty list included (an empty history is a success, not an
   * error); without a usable token, the gate's message.
   */
  lemma HistorySeen(rows: seq<History.Row>, header: Option<string>, decode: string -> Option<int>, st: Style)
    ensures var r := ClassifyHistory(Decode(Wire(HistoryResponse(rows, header, decode), st)));
      (TokenRequired(header, decode).Ok? ==>
         r == Ok(JArr(History.Entries(History.SelectHistory(rows, TokenRequired(header, decode).value)))))
      && (ExtractToken(header).None? ==> r == Err(Error("Token is missing!")))
      && (ExtractToken(header).Some? && TokenRequired(header, decode).Err? ==> r == Err(Error("Invalid or expired token!")))
  {
    match TokenRequired(header, decode)
    case Ok(userId) =>
      HistoryAnswerWellFormed(rows, userId);
      ClientDecodesResponse(HistoryFor(rows, userId), st);
    case Err(e) =>
      if ExtractToken(header).None? {
        ServerMessageShown(403, "Token is missing!", st, "history", "Failed to load history");
      } else {
        ServerMessageShown(403, "Invalid or expired token!", st, "history", "Failed to load history");
      }
  }
}
