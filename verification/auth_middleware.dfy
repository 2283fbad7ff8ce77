/**
  `requireAuth` of the socket server's HTTP routes: the token is the second
  space-separated word of the Authorization header, and the request's user is
  the whole verified payload. Token verification is a parameter.
*/
module AuthMiddleware {
  import opened Wrappers
  import opened Wire
  import opened JsText

  /** `auth.split(' ')[1]`: absent when the header has no space. */
  function TokenOf(header: string): (t: Option<string>)
    ensures t.Some? ==> ' ' !in t.value
  {
    var parts := Split(header, ' ');
    if |parts| >= 2 then Some(parts[1]) else None
  }

  function RequireAuth(header: Option<string>, verify: string -> Option<Claims>): (r: Result<Claims, HttpError>)
    ensures !Truthy(header) ==> r == Failure(HttpError(401, "missing auth header"))
    ensures Truthy(header) && TokenOf(header.value).None? ==> r == Failure(HttpError(401, "invalid token"))
    ensures Truthy(header) && TokenOf(header.value).Some? ==>
      r == if verify(TokenOf(header.value).value).Some?
           then Success(verify(TokenOf(header.value).value).value)
           else Failure(HttpError(401, "invalid token"))
  {
    if !Truthy(header) then Failure(HttpError(401, "missing auth header"))
    else
      var token := TokenOf(header.value);
      if token.None? then Failure(HttpError(401, "invalid token"))
      else
        match verify(token.value)
        case Some(payload) => Success(payload)
        case None => Failure(HttpError(401, "invalid token"))
  }

  /** The second word of `scheme + " " + token` is the token, whatever the scheme. */
  lemma TokenOfSchemeAndToken(scheme: string, token: string)
    requires ' ' !in scheme && ' ' !in token
    ensures TokenOf(scheme + " " + token) == Some(token)
  {
    SplitByAppend(scheme, ' ', token, IsChar(' '));
    SplitByNoSeparator(token, IsChar(' '));
    assert scheme + " " + token == scheme + [' '] + token;
  }

  /** Any scheme word is accepted: such a header admits exactly the payload of a token that verifies. */
  lemma AnySchemeAccepted(scheme: string, token: string, verify: string -> Option<Claims>)
    requires ' ' !in scheme && ' ' !in token
    ensures RequireAuth(Some(scheme + " " + token), verify) ==
      if verify(token).Some? then Success(verify(token).value) else Failure(HttpError(401, "invalid token"))
  {
    TokenOfSchemeAndToken(scheme, token);
  }
}
