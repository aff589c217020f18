/**
 * The client's credential handling: the single `authToken` slot of the device's
 * key-value storage, the login and registration calls, and how their replies
 * are read.
 */
module AuthService {
  import opened Wrappers
  import opened Json
  import opened JsonCodec
  import opened Http
  import JsonRoundTrip

  /** The `authToken` item of AsyncStorage: None when no item is stored. */
  class TokenStore {
    var authToken: Option<JsValue>

    constructor()
      ensures authToken == None
    {
      authToken := None;
    }

    method SetItem(value: JsValue)
      modifies this
      ensures authToken == Some(value)
    {
      authToken := Some(value);
    }

    method GetItem() returns (r: Option<JsValue>)
      ensures r == authToken
    {
      r := authToken;
    }

    method RemoveItem()
      modifies this
      ensures authToken == None
    {
      authToken := None;
    }
  }

  /** `{ username, password }` */
  function Credentials(username: string, password: string): (r: JsValue)
    ensures WellFormed(r)
    ensures r.JObj? && |r.fields| == 2
    ensures Lookup(r.fields, "username") == Some(JStr(username))
    ensures Lookup(r.fields, "password") == Some(JStr(password))
  {
    StringObject([("username", username), ("password", password)])
  }

  /** The POST both calls send: JSON content type, no Authorization header, the credentials as body. */
  function CredentialsRequest(path: string, username: string, password: string): (r: Request)
    ensures r.verb == POST && r.url == ApiBaseUrl + path
    ensures Header(r.headers, "Content-Type") == Some("application/json")
    ensures Header(r.headers, "Authorization") == None
    ensures r.body.Some? && Loads(r.body.value) == Some(Credentials(username, password))
  {
    var body := JsonBody(Credentials(username, password));
    JsonRoundTrip.RoundTrip(JsStringify, Credentials(username, password));
    Request(POST, ApiBaseUrl + path, [("Content-Type", "application/json")], Some(body))
  }

  function LoginRequest(username: string, password: string): Request
  {
    CredentialsRequest("/api/login", username, password)
  }

  function RegisterRequest(username: string, password: string): Request
  {
    CredentialsRequest("/api/register", username, password)
  }

  /**
   * What `login` makes of the reply: it succeeds exactly when the decoded data
   * has a truthy `token`, and returns that token; otherwise the message is
   * `data.error` when truthy, else 'Login failed'.
   */
  function ClassifyLogin(fetched: Fetched): (r: Result<JsValue, JsError>)
    ensures r.Ok? <==> fetched.Ok? && !fetched.value.JNull? && JsTruthy(JsProp(fetched.value, "token"))
    ensures r.Ok? ==> Some(r.value) == JsProp(fetched.value, "token") && JsTruthy(Some(r.value))
    ensures fetched.Err? ==> r == Err(fetched.error)
    ensures fetched == Ok(JNull) ==> r == Err(NullProperty("token"))
    ensures fetched.Ok? && !fetched.value.JNull? && !r.Ok? ==>
      r == Err(Error(ErrorText(JsProp(fetched.value, "error"), "Login failed")))
  {
    match Check(fetched, "token", "Login failed")
    case Err(e) => Err(e)
    case Ok(data) => Ok(JsProp(data, "token").value)
  }

  /**
   * What `registerUser` makes of the reply: `true` exactly when the decoded data
   * has a truthy `status`; otherwise the message is `data.error` when truthy,
   * else 'Registration failed'.
   */
  function ClassifyRegister(fetched: Fetched): (r: Result<bool, JsError>)
    ensures r == Ok(true) <==> fetched.Ok? && !fetched.value.JNull? && JsTruthy(JsProp(fetched.value, "status"))
    ensures r.Ok? ==> r.value
    ensures fetched.Err? ==> r == Err(fetched.error)
    ensures fetched == Ok(JNull) ==> r == Err(NullProperty("status"))
    ensures fetched.Ok? && !fetched.value.JNull? && !r.Ok? ==>
      r == Err(Error(ErrorText(JsProp(fetched.value, "error"), "Registration failed")))
  {
    match Check(fetched, "status", "Registration failed")
    case Err(e) => Err(e)
    case Ok(_) => Ok(true)
  }

  /**
   * `login`: send the credentials, read the decoded reply, and store and return the
   * token when it is truthy; otherwise throw, leaving the store alone.
   */
  method Login(store: TokenStore, username: string, password: string, fetched: Fetched)
    returns (sent: Request, result: Result<JsValue, JsError>)
    modifies store
    ensures sent == LoginRequest(username, password)
    ensures result == ClassifyLogin(fetched)
    ensures result.Ok? ==> store.authToken == Some(result.value)
    ensures result.Err? ==> store.authToken == old(store.authToken)
  {
    sent := LoginRequest(username, password);
    if fetched.Err? {
      return sent, Err(fetched.error);
    }
    var data := fetched.value;
    if data.JNull? {
      return sent, Err(NullProperty("token"));
    }
    var token := JsProp(data, "token");
    if JsTruthy(token) {
      store.SetItem(token.value);
      result := Ok(token.value);
    } else {
      result := Err(Error(ErrorText(JsProp(data, "error"), "Login failed")));
    }
  }

  /**
   * `registerUser`: send the credentials and read the decoded reply. It is given
   * no store, so it neither reads nor writes the token.
   */
  method RegisterUser(username: string, password: string, fetched: Fetched)
    returns (sent: Request, result: Result<bool, JsError>)
    ensures sent == RegisterRequest(username, password)
    ensures result == ClassifyRegister(fetched)
    ensures result.Ok? ==> result.value
  {
    sent := RegisterRequest(username, password);
    if fetched.Err? {
      return sent, Err(fetched.error);
    }
    var data := fetched.value;
    if data.JNull? {
      return sent, Err(NullProperty("status"));
    }
    if JsTruthy(JsProp(data, "status")) {
      result := Ok(true);
    } else {
      result := Err(Error(ErrorText(JsProp(data, "error"), "Registration failed")));
    }
  }

  /** `getToken`: whatever the slot holds (None is the `null` AsyncStorage gives for a missing item). */
  method GetToken(store: TokenStore) returns (token: Option<JsValue>)
    ensures token == store.authToken
  {
    token := store.GetItem();
  }

  /** `logout`: the slot is empty afterwards, whatever it held. */
  method Logout(store: TokenStore)
    modifies store
    ensures store.authToken == None
  {
    store.RemoveItem();
  }

  /** After a successful login, `getToken` gives back the token `login` returned. */
  method LoginThenGetToken(store: TokenStore, username: string, password: string, fetched: Fetched)
    returns (result: Result<JsValue, JsError>, token: Option<JsValue>)
    modifies store
    ensures result == ClassifyLogin(fetched)
    ensures result.Ok? ==> token == Some(result.value)
    ensures result.Err? ==> token == old(store.authToken)
  {
    var sent;
    sent, result := Login(store, username, password, fetched);
    token := GetToken(store);
  }

  /** Logging out twice leaves the same state as logging out once, and `getToken` then gives nothing. */
  method LogoutTwice(store: TokenStore) returns (token: Option<JsValue>)
    modifies store
    ensures store.authToken == None && token == None
  {
    Logout(store);
    Logout(store);
    token := GetToken(store);
  }
}
