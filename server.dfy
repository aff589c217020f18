/**
 * The Flask backend's routes over its two tables: `users` (unique usernames)
 * and `portfolio_history`. JWT signing and decoding, password hashing and
 * checking, the optimiser, the profit formula and the clock are parameters.
 */
module Server {
  import opened Wrappers
  import opened Json
  import opened JsonCodec
  import opened Gate
  import opened History
  import JsonDecoded

  /** A `users` row; `password` holds the hash. */
  datatype User = User(id: int, username: string, password: string)

  /** The `UNIQUE` constraint on `users.username`. */
  predicate UniqueUsernames(users: seq<User>)
  {
    forall i, j :: 0 <= i < j < |users| ==> users[i].username != users[j].username
  }

  /** `SELECT * FROM users WHERE username = ?` with `fetchone()`. */
  function FindUser(users: seq<User>, username: string): (r: Option<User>)
    ensures r.Some? <==> exists i :: 0 <= i < |users| && users[i].username == username
    ensures r.Some? ==> r.value in users && r.value.username == username
    decreases |users|
  {
    if users == [] then None
    else if users[0].username == username then Some(users[0])
    else FindUser(users[1..], username)
  }

  /** A member holding a non-empty string. */
  predicate TextMember(fields: seq<Field>, key: string)
  {
    Lookup(fields, key).Some? && Lookup(fields, key).value.JStr? && Lookup(fields, key).value.s != []
  }

  const BadRequestPage := Response(400, ErrorPage)
  const ServerErrorPage := Response(500, ErrorPage)
  const CredentialsMissing := Failure(400, "Username and password required")

  /**
   * `request.get_json()` and the `username`/`password` checks shared by the
   * two credential routes. A body that is not JSON gets Flask's 400 page; one
   * that is not a dictionary fails on `data.get` (500).
   */
  function ReadCredentials(body: string): (r: Result<(string, string), Response>)
    ensures r.Ok? <==> Loads(body).Some? && Loads(body).value.JObj?
                       && TextMember(Loads(body).value.fields, "username") && TextMember(Loads(body).value.fields, "password")
    ensures r.Ok? ==> Lookup(Loads(body).value.fields, "username") == Some(JStr(r.value.0))
                      && Lookup(Loads(body).value.fields, "password") == Some(JStr(r.value.1))
    ensures Loads(body).None? ==> r == Err(BadRequestPage)
    ensures Loads(body).Some? && Loads(body).value.JObj?
            && !(PyTruthy(PyGet(Loads(body).value.fields, "username", JNull)) && PyTruthy(PyGet(Loads(body).value.fields, "password", JNull)))
            ==> r == Err(CredentialsMissing)
  {
    match Loads(body)
    case None => Err(BadRequestPage)
    case Some(data) =>
      if !data.JObj? then Err(ServerErrorPage)
      else
        var username := PyGet(data.fields, "username", JNull);
        var password := PyGet(data.fields, "password", JNull);
        if !PyTruthy(username) || !PyTruthy(password) then Err(CredentialsMissing)
        else if !username.JStr? || !password.JStr? then Err(ServerErrorPage)
        else Ok((username.s, password.s))
  }

  const Registered := Response(201, Jsonified(JObj([Field("status", JStr("User registered successfully"))])))
  const UsernameTaken := Failure(400, "Username already exists")
  const LoginRefused := Failure(401, "Invalid username or password")

  /** The response of `register` and the `users` table after it; `hash` is `generate_password_hash`. */
  function RegisterEffect(users: seq<User>, nextId: int, body: string, hash: string -> string): (Response, seq<User>)
  {
    match ReadCredentials(body)
    case Err(e) => (e, users)
    case Ok((username, password)) =>
      if FindUser(users, username).Some? then (UsernameTaken, users)
      else (Registered, users + [User(nextId, username, hash(password))])
  }

  /**
   * `register` answers 201 exactly when the credentials are present and the
   * username is new, and then adds exactly one row; every other answer leaves
   * the table as it was.
   */
  lemma RegisterOutcome(users: seq<User>, nextId: int, body: string, hash: string -> string)
    ensures var (resp, after) := RegisterEffect(users, nextId, body, hash);
      var creds := ReadCredentials(body);
      (resp.status == 201 <==> creds.Ok? && FindUser(users, creds.value.0).None?)
      && (resp.status == 201 ==>
            resp == Registered && after == users + [User(nextId, creds.value.0, hash(creds.value.1))])
      && (resp.status != 201 ==> after == users)
      && (creds.Ok? && FindUser(users, creds.value.0).Some? ==> resp == UsernameTaken)
  {
  }

  /** `register` keeps usernames unique. */
  lemma RegisterKeepsUnique(users: seq<User>, nextId: int, body: string, hash: string -> string)
    requires UniqueUsernames(users)
    ensures UniqueUsernames(RegisterEffect(users, nextId, body, hash).1)
  {
    var after := RegisterEffect(users, nextId, body, hash).1;
    if after != users {
      var username := ReadCredentials(body).value.0;
      assert FindUser(users, username).None?;
      forall i, j | 0 <= i < j < |after| ensures after[i].username != after[j].username {
        if j == |users| {
          assert after[i] == users[i];
        } else {
          assert after[i] == users[i] && after[j] == users[j];
        }
      }
    }
  }

  /** Registering the same name a second time is refused as taken, and the table keeps one row for it. */
  lemma RegisterTwice(users: seq<User>, nextId: int, body: string, hash: string -> string)
    requires RegisterEffect(users, nextId, body, hash).0.status == 201
    ensures var after := RegisterEffect(users, nextId, body, hash).1;
      RegisterEffect(after, nextId + 1, body, hash) == (UsernameTaken, after)
  {
    var after := RegisterEffect(users, nextId, body, hash).1;
    var username := ReadCredentials(body).value.0;
    assert after[|users|].username == username;
  }

  /** The response of `login`; `verify` is `check_password_hash` and `sign` is `create_token`. */
  function LoginResponse(users: seq<User>, body: string, verify: (string, string) -> bool, sign: int -> string): Response
  {
    match ReadCredentials(body)
    case Err(e) => e
    case Ok((username, password)) =>
      match FindUser(users, username)
      case Some(user) =>
        if verify(user.password, password) then Response(200, Jsonified(JObj([Field("token", JStr(sign(user.id)))])))
        else LoginRefused
      case None => LoginRefused
  }

  /**
   * `login` gives a token exactly when the user exists and the password checks
   * against its stored hash, and the token is signed for that user's id; with
   * credentials present every other case gets the same 401.
   */
  lemma LoginOutcome(users: seq<User>, body: string, verify: (string, string) -> bool, sign: int -> string)
    ensures var resp := LoginResponse(users, body, verify, sign);
      var creds := ReadCredentials(body);
      (resp.status == 200 <==> creds.Ok? && FindUser(users, creds.value.0).Some?
                               && verify(FindUser(users, creds.value.0).value.password, creds.value.1))
      && (resp.status == 200 ==>
            resp.body == Jsonified(JObj([Field("token", JStr(sign(FindUser(users, creds.value.0).value.id)))])))
      && (creds.Ok? && resp.status != 200 ==> resp == LoginRefused)
      && (creds.Err? ==> resp == creds.error)
  {
  }

  /**
   * After a successful `register`, `login` with the same body signs a token for
   * the new row's id, provided the hash check accepts the password against the hash `register` stored.
   */
  lemma RegisterThenLogin(users: seq<User>, nextId: int, body: string, hash: string -> string,
                          verify: (string, string) -> bool, sign: int -> string)
    requires RegisterEffect(users, nextId, body, hash).0.status == 201
    requires verify(hash(ReadCredentials(body).value.1), ReadCredentials(body).value.1)
    ensures LoginResponse(RegisterEffect(users, nextId, body, hash).1, body, verify, sign)
            == Response(200, Jsonified(JObj([Field("token", JStr(sign(nextId)))])))
  {
    var after := RegisterEffect(users, nextId, body, hash).1;
    var username := ReadCredentials(body).value.0;
    FindUserAppend(users, User(nextId, username, hash(ReadCredentials(body).value.1)));
  }

  /** Looking up a name that only the appended row has finds that row. */
  lemma {:induction false} FindUserAppend(users: seq<User>, u: User)
    requires FindUser(users, u.username).None?
    ensures FindUser(users + [u], u.username) == Some(u)
    decreases |users|
  {
    if users == [] {
      assert users + [u] == [u];
    } else {
      assert (users + [u])[1..] == users[1..] + [u];
      FindUserAppend(users[1..], u);
    }
  }

  /** What `/api/portfolio` reads from its body, with the defaults applied. */
  datatype PortfolioInput = PortfolioInput(tickers: JsValue, period: JsValue, budget: JsValue)

  const TickersRequired := Failure(400, "Tickers (as a list) are required")

  /**
   * `request.get_json()` and the `tickers`/`period`/`budget` reads of
   * `/api/portfolio`: `period` defaults to "1y", `budget` to 0, and `tickers`
   * must be a non-empty list.
   */
  function ReadPortfolioInput(body: string): (r: Result<PortfolioInput, Response>)
    ensures r.Ok? <==> Loads(body).Some? && Loads(body).value.JObj?
                       && Lookup(Loads(body).value.fields, "tickers").Some?
                       && Lookup(Loads(body).value.fields, "tickers").value.JArr?
                       && Lookup(Loads(body).value.fields, "tickers").value.items != []
    ensures r.Ok? ==> Some(r.value.tickers) == Lookup(Loads(body).value.fields, "tickers")
    ensures r.Ok? ==> r.value.period == PyGet(Loads(body).value.fields, "period", JStr("1y"))
                      && r.value.budget == PyGet(Loads(body).value.fields, "budget", JNum("0"))
    ensures Loads(body).None? ==> r == Err(BadRequestPage)
    ensures Loads(body).Some? && !Loads(body).value.JObj? ==> r == Err(ServerErrorPage)
    ensures Loads(body).Some? && Loads(body).value.JObj? && r.Err? ==> r == Err(TickersRequired)
  {
    match Loads(body)
    case None => Err(BadRequestPage)
    case Some(data) =>
      if !data.JObj? then Err(ServerErrorPage)
      else
        var tickers := PyGet(data.fields, "tickers", JNull);
        var period := PyGet(data.fields, "period", JStr("1y"));
        var budget := PyGet(data.fields, "budget", JNum("0"));
        if !PyTruthy(tickers) || !tickers.JArr? then Err(TickersRequired)
        else Ok(PortfolioInput(tickers, period, budget))
  }

  /**
   * The `period` value as the `TEXT` column stores it: a string as is, `null`
   * as NULL, a boolean as 1 or 0, a number as its literal; None for a list or a
   * dictionary, which the driver cannot bind.
   */
  function PeriodColumn(period: JsValue): (r: Option<Option<string>>)
    ensures r.None? <==> period.JArr? || period.JObj?
    ensures forall p :: period == JStr(p) ==> r == Some(Some(p))
    ensures period.JNull? ==> r == Some(None)
  {
    match period
    case JStr(p) => Some(Some(p))
    case JNull => Some(None)
    case JBool(b) => Some(Some(if b then "1" else "0"))
    case JNum(lit) => Some(Some(lit))
    case _ => None
  }

  /** The row `/api/portfolio` inserts. */
  function NewRow(id: int, userId: int, tickers: JsValue, period: Option<string>, recommendation: JsValue, now: string): Row
  {
    Row(id, userId, Some(Print(PythonDumps, tickers)), period, Some(Print(PythonDumps, recommendation)), now)
  }

  /** `jsonify({'recommendation': ..., 'projected_profit': ...})` */
  function Recommended(recommendation: JsValue, projectedProfit: JsValue): Response
  {
    Response(200, Jsonified(JObj([Field("recommendation", recommendation), Field("projected_profit", projectedProfit)])))
  }

  /**
   * The response of the `portfolio` handler for the user `userId` and the
   * history table after it. `optimize` is `mean_variance_optimization` (an
   * error carries `str(e)`), `profit` the projected-profit formula over period
   * and budget, `now` the `CURRENT_TIMESTAMP` text.
   */
  function PortfolioFor(rows: seq<Row>, nextId: int, userId: int, body: string,
                        optimize: (JsValue, JsValue) -> Result<JsValue, string>,
                        profit: (JsValue, JsValue) -> JsValue, now: string): (Response, seq<Row>)
  {
    match ReadPortfolioInput(body)
    case Err(e) => (e, rows)
    case Ok(input) =>
      match optimize(input.tickers, input.period)
      case Err(message) => (Failure(500, message), rows)
      case Ok(recommendation) =>
        match PeriodColumn(input.period)
        case None => (ServerErrorPage, rows)
        case Some(period) =>
          (Recommended(recommendation, profit(input.period, input.budget)),
           rows + [NewRow(nextId, userId, input.tickers, period, recommendation, now)])
  }

  /** `/api/portfolio`: the handler runs only for a caller `token_required` lets through. */
  function PortfolioEffect(rows: seq<Row>, nextId: int, header: Option<string>, body: string,
                           decode: string -> Option<int>, optimize: (JsValue, JsValue) -> Result<JsValue, string>,
                           profit: (JsValue, JsValue) -> JsValue, now: string): (Response, seq<Row>)
  {
    match TokenRequired(header, decode)
    case Err(e) => (e, rows)
    case Ok(userId) => PortfolioFor(rows, nextId, userId, body, optimize, profit, now)
  }

  /**
   * A row is stored exactly when the answer is 200: it belongs to the caller
   * and holds the tickers as `json.dumps` wrote them; a body without a
   * non-empty `tickers` list gets the 400 before the optimiser runs.
   */
  lemma PortfolioOutcome(rows: seq<Row>, nextId: int, userId: int, body: string,
                         optimize: (JsValue, JsValue) -> Result<JsValue, string>,
                         profit: (JsValue, JsValue) -> JsValue, now: string)
    ensures var (resp, after) := PortfolioFor(rows, nextId, userId, body, optimize, profit, now);
      (ReadPortfolioInput(body).Err? ==> resp == ReadPortfolioInput(body).error && after == rows)
      && (resp.status != 200 ==> after == rows)
      && (resp.status == 200 ==>
            ReadPortfolioInput(body).Ok?
            && |after| == |rows| + 1 && after[..|rows|] == rows
            && after[|rows|].id == nextId && after[|rows|].userId == userId
            && after[|rows|].tickers == Some(Print(PythonDumps, ReadPortfolioInput(body).value.tickers))
            && after[|rows|].createdAt == now)
  {
    var (resp, after) := PortfolioFor(rows, nextId, userId, body, optimize, profit, now);
    if resp.status == 200 {
      assert after[..|rows|] == rows;
    }
  }

  /** Without a usable token the route answers the gate's 403 and stores nothing. */
  lemma PortfolioGuarded(rows: seq<Row>, nextId: int, header: Option<string>, body: string,
                         decode: string -> Option<int>, optimize: (JsValue, JsValue) -> Result<JsValue, string>,
                         profit: (JsValue, JsValue) -> JsValue, now: string)
    requires TokenRequired(header, decode).Err?
    ensures PortfolioEffect(rows, nextId, header, body, decode, optimize, profit, now) == (TokenRequired(header, decode).error, rows)
  {
  }

  /** Without a `period` member the stored period is "1y". */
  lemma PeriodDefault(rows: seq<Row>, nextId: int, userId: int, body: string,
                      optimize: (JsValue, JsValue) -> Result<JsValue, string>,
                      profit: (JsValue, JsValue) -> JsValue, now: string)
    requires PortfolioFor(rows, nextId, userId, body, optimize, profit, now).0.status == 200
    requires Lookup(Loads(body).value.fields, "period").None?
    ensures PortfolioFor(rows, nextId, userId, body, optimize, profit, now).1[|rows|].period == Some("1y")
  {
  }

  /**
   * The tickers a successful call stores come back from the history route equal
   * to the list the request body held.
   */
  lemma StoredTickersReadBack(rows: seq<Row>, nextId: int, userId: int, body: string,
                              optimize: (JsValue, JsValue) -> Result<JsValue, string>,
                              profit: (JsValue, JsValue) -> JsValue, now: string)
    requires PortfolioFor(rows, nextId, userId, body, optimize, profit, now).0.status == 200
    ensures var after := PortfolioFor(rows, nextId, userId, body, optimize, profit, now).1;
      Some(DecodeTickers(after[|rows|].tickers)) == Lookup(Loads(body).value.fields, "tickers")
  {
    var tickers := ReadPortfolioInput(body).value.tickers;
    JsonDecoded.LoadsWellFormed(body);
    var fields := Loads(body).value.fields;
    var i :| 0 <= i < |fields| && fields[i] == Field("tickers", tickers);
    assert WellFormed(fields[i].value);
    StoredTickersComeBack(tickers);
  }

  /**
   * After a successful call, the caller's history holds an entry for the new
   * row whose `tickers` member is the list the request body held.
   */
  lemma PortfolioThenHistory(rows: seq<Row>, nextId: int, userId: int, body: string,
                             optimize: (JsValue, JsValue) -> Result<JsValue, string>,
                             profit: (JsValue, JsValue) -> JsValue, now: string)
    requires PortfolioFor(rows, nextId, userId, body, optimize, profit, now).0.status == 200
    ensures var entries := Entries(SelectHistory(PortfolioFor(rows, nextId, userId, body, optimize, profit, now).1, userId));
      exists i :: 0 <= i < |entries| && entries[i].JObj?
                  && Lookup(entries[i].fields, "tickers") == Lookup(Loads(body).value.fields, "tickers")
  {
    var after := PortfolioFor(rows, nextId, userId, body, optimize, profit, now).1;
    PortfolioOutcome(rows, nextId, userId, body, optimize, profit, now);
    StoredTickersReadBack(rows, nextId, userId, body, optimize, profit, now);
    var row := after[|rows|];
    SelectHistoryRows(after, userId);
    var selected := SelectHistory(after, userId);
    assert row in multiset(after);
    assert row in multiset(selected);
    var i :| 0 <= i < |selected| && selected[i] == row;
    EntryMembers(row);
    assert Entries(selected)[i] == EntryOf(row);
  }

  /** The `get_history` handler's response for the user `userId`. */
  function HistoryFor(rows: seq<Row>, userId: int): Response
  {
    Response(200, Jsonified(JObj([Field("history", JArr(Entries(SelectHistory(rows, userId))))])))
  }

  /** The history answer is JSON that reads back whole: every entry is well formed. */
  lemma HistoryAnswerWellFormed(rows: seq<Row>, userId: int)
    ensures HistoryFor(rows, userId).body.Jsonified? && WellFormed(HistoryFor(rows, userId).body.value)
  {
    var entries := Entries(SelectHistory(rows, userId));
    forall i | 0 <= i < |entries| ensures WellFormed(entries[i]) {
      EntryWellFormed(SelectHistory(rows, userId)[i]);
    }
    assert WellFormed(JArr(entries));
  }

  /** `/api/get_history`: the handler runs only for a caller `token_required` lets through. */
  function HistoryResponse(rows: seq<Row>, header: Option<string>, decode: string -> Option<int>): Response
  {
    match TokenRequired(header, decode)
    case Err(e) => e
    case Ok(userId) => HistoryFor(rows, userId)
  }

  /**
   * The caller's history holds one entry per row of theirs, newest first, every
   * entry carrying the caller's id; other users' rows never appear.
   */
  lemma HistoryOutcome(rows: seq<Row>, header: Option<string>, decode: string -> Option<int>)
    ensures var resp := HistoryResponse(rows, header, decode);
      (TokenRequired(header, decode).Err? ==> resp == TokenRequired(header, decode).error)
      && (TokenRequired(header, decode).Ok? ==>
            var userId := TokenRequired(header, decode).value;
            var selected := SelectHistory(rows, userId);
            resp.status == 200
            && resp.body == Jsonified(JObj([Field("history", JArr(Entries(selected)))]))
            && NewestFirst(selected)
            && (forall x :: multiset(selected)[x] == if x.userId == userId then multiset(rows)[x] else 0)
            && (forall i :: 0 <= i < |selected| ==> selected[i].userId == userId))
  {
    if TokenRequired(header, decode).Ok? {
      var userId := TokenRequired(header, decode).value;
      SelectHistoryRows(rows, userId);
      var selected := SelectHistory(rows, userId);
      forall i | 0 <= i < |selected| ensures selected[i].userId == userId {
        assert selected[i] in selected;
      }
    }
  }

  /** The backend's tables, with the ids `AUTOINCREMENT` hands out next. */
  class Backend {
    var users: seq<User>
    var nextUserId: int
    var history: seq<Row>
    var nextRowId: int

    /** Usernames unique; ids positive, increasing in table order and below the next id. */
    predicate Valid()
      reads this
    {
      1 <= nextUserId && 1 <= nextRowId && UniqueUsernames(users)
      && (forall i :: 0 <= i < |users| ==> 1 <= users[i].id < nextUserId)
      && (forall i, j :: 0 <= i < j < |users| ==> users[i].id < users[j].id)
      && (forall i :: 0 <= i < |history| ==> 1 <= history[i].id < nextRowId)
      && (forall i, j :: 0 <= i < j < |history| ==> history[i].id < history[j].id)
    }

    /** `init_db`: both tables empty. */
    constructor()
      ensures Valid() && users == [] && history == []
    {
      users := [];
      nextUserId := 1;
      history := [];
      nextRowId := 1;
    }

    /** `POST /api/register` */
    method Register(body: string, hash: string -> string) returns (resp: Response)
      requires Valid()
      modifies this
      ensures Valid()
      ensures (resp, users) == RegisterEffect(old(users), old(nextUserId), body, hash)
      ensures nextUserId == old(nextUserId) + |users| - |old(users)|
      ensures history == old(history) && nextRowId == old(nextRowId)
    {
      var credentials := ReadCredentials(body);
      if credentials.Err? {
        return credentials.error;
      }
      var (username, password) := credentials.value;
      var user := FindUser(users, username);
      if user.Some? {
        return UsernameTaken;
      }
      var hashed := hash(password);
      RegisterKeepsUnique(users, nextUserId, body, hash);
      users := users + [User(nextUserId, username, hashed)];
      nextUserId := nextUserId + 1;
      resp := Registered;
    }

    /** `POST /api/login` (reads the table, changes nothing). */
    method Login(body: string, verify: (string, string) -> bool, sign: int -> string) returns (resp: Response)
      ensures resp == LoginResponse(users, body, verify, sign)
    {
      var credentials := ReadCredentials(body);
      if credentials.Err? {
        return credentials.error;
      }
      var (username, password) := credentials.value;
      var user := FindUser(users, username);
      if user.Some? && verify(user.value.password, password) {
        var token := sign(user.value.id);
        resp := Response(200, Jsonified(JObj([Field("token", JStr(token))])));
      } else {
        resp := LoginRefused;
      }
    }

    /** `POST /api/portfolio`: `token_required`, then the handler. */
    method PortfolioRoute(header: Option<string>, body: string, decode: string -> Option<int>,
                          optimize: (JsValue, JsValue) -> Result<JsValue, string>,
                          profit: (JsValue, JsValue) -> JsValue, now: string) returns (resp: Response)
      requires Valid()
      modifies this
      ensures Valid()
      ensures (resp, history) == PortfolioEffect(old(history), old(nextRowId), header, body, decode, optimize, profit, now)
      ensures nextRowId == old(nextRowId) + |history| - |old(history)|
      ensures users == old(users) && nextUserId == old(nextUserId)
    {
      var gate := TokenRequired(header, decode);
      if gate.Err? {
        return gate.error;
      }
      resp := Portfolio(gate.value, body, optimize, profit, now);
    }

    /** The `portfolio` handler for the user `userId`. */
    method Portfolio(userId: int, body: string, optimize: (JsValue, JsValue) -> Result<JsValue, string>,
                     profit: (JsValue, JsValue) -> JsValue, now: string) returns (resp: Response)
      requires Valid()
      modifies this
      ensures Valid()
      ensures (resp, history) == PortfolioFor(old(history), old(nextRowId), userId, body, optimize, profit, now)
      ensures nextRowId == old(nextRowId) + |history| - |old(history)|
      ensures users == old(users) && nextUserId == old(nextUserId)
    {
      var input := ReadPortfolioInput(body);
      if input.Err? {
        return input.error;
      }
      var PortfolioInput(tickers, period, budget) := input.value;
      var recommendation := optimize(tickers, period);
      if recommendation.Err? {
        return Failure(500, recommendation.error);
      }
      var projectedProfit := profit(period, budget);
      var column := PeriodColumn(period);
      if column.None? {
        return ServerErrorPage;
      }
      history := history + [NewRow(nextRowId, userId, tickers, column.value, recommendation.value, now)];
      nextRowId := nextRowId + 1;
      resp := Recommended(recommendation.value, projectedProfit);
    }

    /** `GET /api/get_history`: `token_required`, then the handler. */
    method HistoryRoute(header: Option<string>, decode: string -> Option<int>) returns (resp: Response)
      ensures resp == HistoryResponse(history, header, decode)
    {
      var gate := TokenRequired(header, decode);
      if gate.Err? {
        return gate.error;
      }
      resp := GetHistory(gate.value);
    }

    /** The `get_history` handler for the user `userId`: one entry appended per selected row. */
    method GetHistory(userId: int) returns (resp: Response)
      ensures resp == HistoryFor(history, userId)
    {
      var rows := SelectHistory(history, userId);
      var entries: seq<JsValue> := [];
      for i := 0 to |rows|
        invariant entries == Entries(rows[..i])
      {
        EntriesSnoc(rows, i);
        entries := entries + [EntryOf(rows[i])];
      }
      assert rows[..|rows|] == rows;
      resp := Response(200, Jsonified(JObj([Field("history", JArr(entries))])));
    }
  }
}
