/**
  The browser client's authentication helpers: fetching the session token
  from the identity provider, with its error mapping, and picking the user's
  e-mail address. The provider's `getToken` call is a parameter: absent, or
  the outcome of calling it.
*/
module ClientAuth {
  import opened Wrappers
  import opened JsText

  /** The outcome of `await getToken({ template: 'default' })`. */
  datatype TokenOutcome =
    | Token(token: Option<string>)
    | Threw(message: Option<string>, asText: string)   // the error's `message`, and `String(error)`

  const NoGetToken := "getToken function not available. User may not be authenticated."
  /** The message thrown for an empty token, around its first "template". */
  const EmptyTokenHead := "Failed to get authentication token. JWT "
  const EmptyTokenTail := " \"default\" may not exist in Clerk dashboard. Please create a JWT template named \"default\" in your Clerk dashboard under JWT Templates."
  const EmptyToken := EmptyTokenHead + "template" + EmptyTokenTail
  const TemplateMissing := "JWT template \"default\" not found. Please create it in your Clerk dashboard:\n1. Go to Clerk Dashboard > JWT Templates\n2. Create a new template named \"default\"\n3. Add any claims you need (email, userId, etc.)\n4. Save and try again."
  const FailedPrefix := "Failed to get authentication token: "

  /** The catch block's test on a message. */
  predicate MentionsTemplate(message: string) {
    Contains(message, "template") || Contains(message, "No JWT template") || Contains(message, "jwt_template")
  }

  /** The catch block: a message about templates becomes the template error; anything else is wrapped. */
  function Rethrown(message: Option<string>, asText: string): (e: string)
    ensures Truthy(message) && MentionsTemplate(message.value) ==> e == TemplateMissing
    ensures !(Truthy(message) && MentionsTemplate(message.value)) ==>
      e == FailedPrefix + (if Truthy(message) then message.value else asText)
  {
    if Truthy(message) && MentionsTemplate(message.value) then TemplateMissing
    else FailedPrefix + OrElse(message, Some(asText)).value
  }

  /**
    `getAuthToken(getToken)`: the token when it is non-empty; otherwise the
    error thrown. The error for an empty token is thrown inside the `try`, so
    it passes through the catch block too.
  */
  function GetAuthToken(getToken: Option<TokenOutcome>): (r: Result<string, string>)
    ensures getToken.None? ==> r == Failure(NoGetToken)
    ensures r.Success? <==> getToken.Some? && getToken.value.Token? && Truthy(getToken.value.token)
    ensures r.Success? ==> r.value == getToken.value.token.value
    ensures getToken.Some? && getToken.value.Threw? ==>
      r == Failure(Rethrown(getToken.value.message, getToken.value.asText))
  {
    match getToken
    case None => Failure(NoGetToken)
    case Some(Token(t)) =>
      if Truthy(t) then Success(t.value) else Failure(Rethrown(Some(EmptyToken), EmptyToken))
    case Some(Threw(message, asText)) => Failure(Rethrown(message, asText))
  }

  /** The two longer phrases contain "template", so the catch block's test is one substring test. */
  lemma {:induction false} MentionsTemplateIsOneTest(message: string)
    ensures MentionsTemplate(message) <==> Contains(message, "template")
  {
    if Contains(message, "No JWT template") {
      ContainsPart(message, "No JWT template", 7, "template");
    }
    if Contains(message, "jwt_template") {
      ContainsPart(message, "jwt_template", 4, "template");
    }
  }

  /** A text containing `outer` contains every part of `outer`. */
  lemma {:induction false} ContainsPart(s: string, outer: string, k: nat, part: string)
    requires Contains(s, outer)
    requires k + |part| <= |outer| && outer[k..k + |part|] == part
    ensures Contains(s, part)
    decreases |s|
  {
    if StartsWith(s, outer) {
      assert s[k..k + |part|] == part;
      ContainsAt(s, part, k);
    } else {
      ContainsPart(s[1..], outer, k, part);
      ContainsShift(s, part);
    }
  }

  lemma {:induction false} ContainsShift(s: string, part: string)
    requires |s| > 0 && Contains(s[1..], part)
    ensures Contains(s, part)
  {
  }

  /** An empty token ends in the template error, not in the message written for it. */
  lemma EmptyTokenIsTemplateError(token: Option<string>)
    requires !Truthy(token)
    ensures GetAuthToken(Some(Token(token))) == Failure(TemplateMissing)
  {
    ContainsMiddle(EmptyTokenHead, "template", EmptyTokenTail);
  }

  lemma ContainsMiddle(a: string, b: string, c: string)
    ensures Contains(a + b + c, b)
  {
    assert (a + b + c)[|a|..|a| + |b|] == b;
    ContainsAt(a + b + c, b, |a|);
  }

  /** A user as the identity provider gives it: the primary address, and the listed addresses. */
  datatype ClerkUser = ClerkUser(primaryEmail: Option<string>, listedEmails: Option<seq<Option<string>>>)

  /** `user.emailAddresses?.[0]?.emailAddress`. */
  function FirstListed(u: ClerkUser): Option<string> {
    if u.listedEmails.Some? && |u.listedEmails.value| > 0 then u.listedEmails.value[0] else None
  }

  /** `getUserEmail(user)`: the primary address, else the first listed one; an error otherwise. */
  function GetUserEmail(user: Option<ClerkUser>): (r: Result<string, string>)
    ensures user.None? ==> r == Failure("User object not available")
    ensures user.Some? && Truthy(user.value.primaryEmail) ==> r == Success(user.value.primaryEmail.value)
    ensures user.Some? && !Truthy(user.value.primaryEmail) && Truthy(FirstListed(user.value)) ==>
      r == Success(FirstListed(user.value).value)
    ensures r.Failure? <==> user.None? || (!Truthy(user.value.primaryEmail) && !Truthy(FirstListed(user.value)))
    ensures r.Success? ==> r.value != ""
  {
    match user
    case None => Failure("User object not available")
    case Some(u) =>
      var email := OrElse(u.primaryEmail, FirstListed(u));
      if !Truthy(email) then Failure("User email not found in Clerk user object")
      else Success(email.value)
  }
}
