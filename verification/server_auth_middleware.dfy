/**
  `requireAuth` of the standalone server: the Authorization header must split
  on spaces into exactly two parts; the scheme word is not checked, and the
  request's user keeps only `{id, email}` of the verified payload.
*/
module ServerAuthMiddleware {
  import opened Wrappers
  import opened Wire
  import opened JsText

  const Unauthenticated := HttpError(401, "unauthenticated")

  function RequireAuth(header: Option<string>, verify: string -> Option<Claims>): (r: Result<AuthUser, HttpError>)
    ensures !Truthy(header) ==> r == Failure(Unauthenticated)
    ensures Truthy(header) && |Split(header.value, ' ')| != 2 ==> r == Failure(Unauthenticated)
    ensures r.Success? <==>
      Truthy(header) && |Split(header.value, ' ')| == 2 && verify(Split(header.value, ' ')[1]).Some?
    ensures r.Success? ==>
      var p := verify(Split(header.value, ' ')[1]).value;
      r.value == AuthUser(p.id, p.email)
  {
    if !Truthy(header) then Failure(Unauthenticated)
    else
      var parts := Split(header.value, ' ');
      if |parts| != 2 then Failure(Unauthenticated)
      else
        match verify(parts[1])
        case Some(payload) => Success(AuthUser(payload.id, payload.email))
        case None => Failure(Unauthenticated)
  }

  /** A header with a third word is refused even when its second word is a valid token. */
  lemma ThreeWordsRefused(scheme: string, token: string, extra: string, verify: string -> Option<Claims>)
    requires ' ' !in scheme && ' ' !in token && ' ' !in extra
    ensures RequireAuth(Some(scheme + " " + token + " " + extra), verify) == Failure(Unauthenticated)
  {
    var h := scheme + " " + token + " " + extra;
    assert h == scheme + [' '] + (token + [' '] + extra);
    SplitByAppend(scheme, ' ', token + [' '] + extra, IsChar(' '));
    SplitByAppend(token, ' ', extra, IsChar(' '));
    SplitByNoSeparator(extra, IsChar(' '));
  }

  /** Whatever the scheme word, a two-word header admits exactly the `{id, email}` of a token that verifies. */
  lemma AnySchemeAccepted(scheme: string, token: string, verify: string -> Option<Claims>)
    requires ' ' !in scheme && ' ' !in token
    ensures RequireAuth(Some(scheme + " " + token), verify) ==
      if verify(token).Some? then Success(AuthUser(verify(token).value.id, verify(token).value.email))
      else Failure(Unauthenticated)
  {
    assert scheme + " " + token == scheme + [' '] + token;
    SplitByAppend(scheme, ' ', token, IsChar(' '));
    SplitByNoSeparator(token, IsChar(' '));
  }
}
