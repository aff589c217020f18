/**
 * What a backend route hands back, and the `token_required` decorator that
 * guards the two protected routes: the bearer token is read from the
 * `Authorization` header and decoded before the route runs.
 */
module Gate {
  import opened Wrappers
  import opened Text
  import opened Json

  /**
   * A response body: what `jsonify` was given, or the HTML error page Flask
   * renders for a body that is not JSON (400) or an exception no route handles (500).
   */
  datatype Body = Jsonified(value: JsValue) | ErrorPage

  datatype Response = Response(status: int, body: Body)

  /** `jsonify({'error': message}), status` */
  function Failure(status: int, message: string): (r: Response)
    ensures r.status == status && r.body.Jsonified? && r.body.value.JObj?
    ensures Lookup(r.body.value.fields, "error") == Some(JStr(message))
  {
    Response(status, Jsonified(JObj([Field("error", JStr(message))])))
  }

  const TokenMissing := Failure(403, "Token is missing!")
  const TokenInvalid := Failure(403, "Invalid or expired token!")

  /**
   * The token `token_required` takes from the header: present only when the
   * header value splits on whitespace runs into exactly two words, the first exactly `Bearer`.
   */
  function ExtractToken(header: Option<string>): (r: Option<string>)
    ensures r.Some? <==> header.Some? && |PySplit(header.value)| == 2 && PySplit(header.value)[0] == "Bearer"
    ensures r.Some? ==> r.value == PySplit(header.value)[1] && IsWord(r.value)
  {
    match header
    case None => None
    case Some(h) =>
      if h == [] then None
      else
        var parts := PySplit(h);
        if |parts| == 2 && parts[0] == "Bearer" then
          assert parts[1] in parts;
          Some(parts[1])
        else None
  }

  /**
   * `token_required`: the caller's user id, or the 403 the route answers with
   * instead of running. `decode` is `decode_token` (signature and expiry
   * checking are the JWT library's); a decoded id of 0 is falsy and rejected too.
   */
  function TokenRequired(header: Option<string>, decode: string -> Option<int>): (r: Result<int, Response>)
    ensures r.Ok? <==> ExtractToken(header).Some? && decode(ExtractToken(header).value).Some?
                       && decode(ExtractToken(header).value).value != 0
    ensures r.Ok? ==> decode(ExtractToken(header).value) == Some(r.value) && r.value != 0
    ensures ExtractToken(header).None? ==> r == Err(TokenMissing)
    ensures ExtractToken(header).Some? && r.Err? ==> r == Err(TokenInvalid)
  {
    match ExtractToken(header)
    case None => Err(TokenMissing)
    case Some(token) =>
      match decode(token)
      case None => Err(TokenInvalid)
      case Some(userId) => if userId == 0 then Err(TokenInvalid) else Ok(userId)
  }

  lemma BearerIsWord()
    ensures IsWord("Bearer")
  {
    var b := "Bearer";
    assert forall k :: 0 <= k < |b| ==> b[k] in {'B', 'e', 'a', 'r'};
  }

  /** `Bearer`, any run of whitespace, then a word: that word is the token. */
  lemma BearerAccepted(gap: string, t: string)
    requires gap != [] && forall k :: 0 <= k < |gap| ==> IsPySpace(gap[k])
    requires IsWord(t)
    ensures ExtractToken(Some("Bearer" + gap + t)) == Some(t)
  {
    BearerIsWord();
    PySplitTwoWords("Bearer", gap, t);
  }

  /** A character of the `b64token` syntax of RFC 6750, section 2.1. */
  predicate IsB64Char(c: char)
  {
    ('A' <= c <= 'Z') || ('a' <= c <= 'z') || ('0' <= c <= '9')
    || c == '-' || c == '.' || c == '_' || c == '~' || c == '+' || c == '/'
  }

  /** `b64token = 1*( ALPHA / DIGIT / "-" / "." / "_" / "~" / "+" / "/" ) *"="` */
  ghost predicate B64Token(t: string)
  {
    exists n :: B64Split(t, n)
  }

  /** `t` is `n` b64token characters (at least one) followed by `=` padding. */
  predicate B64Split(t: string, n: int)
  {
    1 <= n <= |t| && (forall k :: 0 <= k < n ==> IsB64Char(t[k])) && (forall k :: n <= k < |t| ==> t[k] == '=')
  }

  /** Credentials written as RFC 6750, section 2.1 shows them (`Bearer`, one space, a b64token) are accepted. */
  lemma RfcCredentialsAccepted(t: string)
    requires B64Token(t)
    ensures ExtractToken(Some("Bearer " + t)) == Some(t)
  {
    var n :| B64Split(t, n);
    assert forall k :: 0 <= k < |t| ==> !IsPySpace(t[k]) by {
      forall k | 0 <= k < |t| ensures !IsPySpace(t[k]) {
        if k < n { assert IsB64Char(t[k]); } else { assert t[k] == '='; }
      }
    }
    assert "Bearer " + t == "Bearer" + " " + t;
    BearerAccepted(" ", t);
  }

  /**
   * The scheme is compared exactly: `bearer`, which section 2.1 of RFC 7235
   * makes equivalent (schemes are case-insensitive), reads as no token.
   */
  lemma LowercaseSchemeRejected(t: string)
    requires IsWord(t)
    ensures ExtractToken(Some("bearer " + t)) == None
  {
    var b := "bearer";
    assert forall k :: 0 <= k < |b| ==> b[k] in {'b', 'e', 'a', 'r'};
    assert "bearer " + t == b + " " + t;
    PySplitTwoWords(b, " ", t);
    assert b[0] != "Bearer"[0];
  }

  /** A third word after the token makes the header unusable. */
  lemma ExtraWordRejected(t: string, u: string)
    requires IsWord(t) && IsWord(u)
    ensures ExtractToken(Some("Bearer " + (t + " " + u))) == None
  {
    BearerIsWord();
    var w := t + " " + u;
    PySplitTwoWords(t, " ", u);
    PySplitSkipsSpaces(" ", w);
    PySplitWordThen("Bearer", " " + w);
    assert "Bearer " + w == "Bearer" + (" " + w);
  }
}
