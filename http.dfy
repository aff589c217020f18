/**
 * The request/response edge between the mobile client and the Flask backend,
 * with the network replaced by values: the request a client call sends, what
 * `fetch` hands back, `response.json()`, and the errors a client call can end in.
 */
module Http {
  import opened Wrappers
  import opened Json
  import opened JsonCodec

  const ApiBaseUrl: string := "http://127.0.0.1:5000"

  datatype Method = GET | POST

  /** A request as `fetch` is given it; `body` None means no body. Headers keep their written order. */
  datatype Request = Request(verb: Method, url: string, headers: seq<(string, string)>, body: Option<string>)

  /** What `fetch` resolves to: no response at all, or a status and the body text. */
  datatype Reply = NoResponse | Received(status: int, text: string)

  /**
   * How a client call can fail. `Error` is the `new Error(message)` the code
   * throws; the others are raised by the runtime: `fetch` rejecting, `response.json()`
   * on text that is not JSON, and reading a property of a decoded `null`.
   */
  datatype JsError =
    | Error(message: string)
    | FetchFailed
    | BadJson
    | NullProperty(property: string)

  /** The value of a header, first match; None when the request has no such header. */
  function Header(headers: seq<(string, string)>, name: string): (r: Option<string>)
    ensures r.Some? <==> exists i :: 0 <= i < |headers| && headers[i].0 == name
    ensures r.Some? ==> exists i :: 0 <= i < |headers| && headers[i] == (name, r.value)
  {
    if headers == [] then None
    else if headers[0].0 == name then Some(headers[0].1)
    else
      Header(headers[1..], name)
  }

  /**
   * What `await fetch(...)` followed by `await response.json()` yields: the
   * decoded body, or the error one of them raised.
   */
  type Fetched = Result<JsValue, JsError>

  /** `await response.json()` on a reply (the status is not looked at). */
  function Decode(reply: Reply): (r: Fetched)
    ensures reply.NoResponse? ==> r == Err(FetchFailed)
    ensures reply.Received? ==> (r.Ok? <==> Loads(reply.text).Some?)
    ensures r.Ok? ==> reply.Received? && Loads(reply.text) == Some(r.value)
    ensures r.Err? && reply.Received? ==> r == Err(BadJson)
  {
    match reply
    case NoResponse => Err(FetchFailed)
    case Received(_, text) =>
      match Loads(text)
      case None => Err(BadJson)
      case Some(v) => Ok(v)
  }

  /**
   * The shape every client call shares: given the decoded reply, succeed with the
   * decoded data when `data[key]` is truthy, and otherwise throw
   * `new Error(data.error || fallback)`.
   */
  function Check(fetched: Fetched, key: string, fallback: string): (r: Result<JsValue, JsError>)
    ensures r.Ok? <==> fetched.Ok? && !fetched.value.JNull? && JsTruthy(JsProp(fetched.value, key))
    ensures r.Ok? ==> r.value == fetched.value && r.value.JObj?
    ensures fetched.Err? ==> r == Err(fetched.error)
    ensures fetched == Ok(JNull) ==> r == Err(NullProperty(key))
    ensures fetched.Ok? && !fetched.value.JNull? && !JsTruthy(JsProp(fetched.value, key)) ==>
      r == Err(Error(ErrorText(JsProp(fetched.value, "error"), fallback)))
  {
    match fetched
    case Err(e) => Err(e)
    case Ok(data) =>
      if data.JNull? then Err(NullProperty(key))
      else if JsTruthy(JsProp(data, key)) then Ok(data)
      else Err(Error(ErrorText(JsProp(data, "error"), fallback)))
  }

  /** The JSON body `JSON.stringify` writes for the client's requests. */
  function JsonBody(v: JsValue): string
  {
    Print(JsStringify, v)
  }
}
