/**
  Registration, e-mail verification and login over the user collection.
  Password hashing and checking, the random verification token, the clock
  (milliseconds) and token signing are parameters; the verification e-mail
  is sent or not without any effect on the reply.
*/
module AuthRoutes {
  import opened Wrappers
  import opened Wire
  import opened JsText

  /** 24 hours in milliseconds. */
  const VerificationWindow := 24 * 60 * 60 * 1000

  /** The access token's lifetime, 2 hours, in seconds. */
  const AccessTokenLifetime := 2 * 60 * 60

  datatype User = User(
    id: string,
    email: string,
    passwordHash: Option<string>,
    displayName: Option<string>,
    emailVerified: bool,
    verificationToken: Option<string>,
    verificationExpires: Option<int>)

  /** The public view of a user in a reply. */
  datatype UserView = UserView(id: string, email: string, displayName: Option<string>, emailVerified: Option<bool>)

  /** `findOne({ email })`: the position of the first user with that e-mail. */
  function FindByEmail(users: seq<User>, email: string): (k: Option<nat>)
    ensures k.Some? ==> k.value < |users| && users[k.value].email == email
    ensures k.Some? ==> forall j :: 0 <= j < k.value ==> users[j].email != email
    ensures k.None? ==> forall j :: 0 <= j < |users| ==> users[j].email != email
  {
    if |users| == 0 then None
    else if users[|users| - 1].email == email && FindByEmail(users[..|users| - 1], email).None? then Some(|users| - 1)
    else FindByEmail(users[..|users| - 1], email)
  }

  /** A verification token that is still valid at `now`: equal, and expiring strictly later. */
  predicate HoldsLiveToken(u: User, token: string, now: int) {
    u.verificationToken == Some(token) && u.verificationExpires.Some? && u.verificationExpires.value > now
  }

  /** `findOne({ emailVerificationToken: token, emailVerificationExpires: { $gt: now } })`. */
  function FindByToken(users: seq<User>, token: string, now: int): (k: Option<nat>)
    ensures k.Some? ==> k.value < |users| && HoldsLiveToken(users[k.value], token, now)
    ensures k.Some? ==> forall j :: 0 <= j < k.value ==> !HoldsLiveToken(users[j], token, now)
    ensures k.None? ==> forall j :: 0 <= j < |users| ==> !HoldsLiveToken(users[j], token, now)
  {
    if |users| == 0 then None
    else
      var earlier := FindByToken(users[..|users| - 1], token, now);
      if earlier.None? && HoldsLiveToken(users[|users| - 1], token, now) then Some(|users| - 1)
      else earlier
  }

  /** The user a successful registration creates. */
  function NewUser(id: string, email: string, passwordHash: string, displayName: Option<string>,
                   random: seq<byte>, now: int): (u: User)
    requires |random| == 32
    ensures !u.emailVerified && u.verificationExpires == Some(now + VerificationWindow)
    ensures u.verificationToken.Some? && |u.verificationToken.value| == 64
    ensures forall i :: 0 <= i < 64 ==> IsLowerHexDigit(u.verificationToken.value[i])
  {
    User(id, email, Some(passwordHash), displayName, false, Some(Hex(random)), Some(now + VerificationWindow))
  }

  /** A verified user: the flag is set and the token and its expiry are cleared. */
  function MarkVerified(u: User): (v: User)
    ensures v.emailVerified && v.verificationToken.None? && v.verificationExpires.None?
    ensures v.id == u.id && v.email == u.email && v.passwordHash == u.passwordHash && v.displayName == u.displayName
  {
    u.(emailVerified := true, verificationToken := None, verificationExpires := None)
  }

  /** The claims a login signs: `{id, email}` issued at `now` (seconds) with a 2-hour expiry. */
  function AccessClaims(u: User, now: int): (c: Claims)
    ensures c.id == u.id && c.email == u.email
    ensures c.expiresAt - c.issuedAt == 7200
  {
    Claims(u.id, u.email, now / 1000, now / 1000 + AccessTokenLifetime)
  }

  datatype LoginReply = LoginReply(user: UserView, token: string, claims: Claims)

  /**
    POST /login. `check(password, hash)` is the password comparison; a user
    without a hash makes it throw (500). The password is checked before the
    verification flag.
  */
  function Login(users: seq<User>, email: Option<string>, password: Option<string>,
                 check: (string, string) -> bool, sign: Claims -> string, now: int): (r: Result<LoginReply, HttpError>)
    ensures !Truthy(email) || !Truthy(password) ==> r == Failure(HttpError(400, "email & password required"))
    ensures Truthy(email) && Truthy(password) && FindByEmail(users, email.value).None? ==>
      r == Failure(HttpError(401, "invalid credentials"))
    ensures r.Success? <==>
      Truthy(email) && Truthy(password) && FindByEmail(users, email.value).Some? &&
      var u := users[FindByEmail(users, email.value).value];
      u.passwordHash.Some? && check(password.value, u.passwordHash.value) && u.emailVerified
    ensures r.Success? ==>
      var u := users[FindByEmail(users, email.value).value];
      r.value.claims == AccessClaims(u, now) && r.value.token == sign(r.value.claims) &&
      r.value.claims.expiresAt - r.value.claims.issuedAt == AccessTokenLifetime &&
      r.value.user == UserView(u.id, u.email, u.displayName, None)
  {
    if !Truthy(email) || !Truthy(password) then Failure(HttpError(400, "email & password required"))
    else match FindByEmail(users, email.value)
      case None => Failure(HttpError(401, "invalid credentials"))
      case Some(k) =>
        var u := users[k];
        if u.passwordHash.None? then Failure(HttpError(500, "server error"))
        else if !check(password.value, u.passwordHash.value) then Failure(HttpError(401, "invalid credentials"))
        else if !u.emailVerified then Failure(HttpError(401, "email_not_verified"))
        else
          var claims := AccessClaims(u, now);
          Success(LoginReply(UserView(u.id, u.email, u.displayName, None), sign(claims), claims))
  }

  /** An unknown e-mail and a wrong password get the same reply, whether or not the user is verified. */
  lemma WrongPasswordLooksUnknown(users: seq<User>, email: string, password: string,
                                  check: (string, string) -> bool, sign: Claims -> string, now: int)
    requires email != "" && password != ""
    requires FindByEmail(users, email).Some?
    requires var u := users[FindByEmail(users, email).value];
      u.passwordHash.Some? && !check(password, u.passwordHash.value)
    ensures Login(users, Some(email), Some(password), check, sign, now) ==
      Login([], Some(email), Some(password), check, sign, now)
  {
  }

  /** The user collection. */
  class UserStore {
    var users: seq<User>

    constructor()
      ensures users == []
    {
      users := [];
    }

    /**
      POST /register. `passwordHash` is the salted hash of the password,
      `random` the 32 random bytes of the token, `createOk` false when the
      create throws; `mailOk`, the e-mail's fate, changes nothing.
    */
    method Register(email: Option<string>, password: Option<string>, displayName: Option<string>,
                    newId: string, passwordHash: string, random: seq<byte>, now: int, createOk: bool, mailOk: bool)
      returns (r: Result<UserView, HttpError>)
      requires |random| == 32
      modifies this
      ensures !Truthy(email) || !Truthy(password) ==> r == Failure(HttpError(400, "email & password required"))
      ensures Truthy(email) && Truthy(password) && FindByEmail(old(users), email.value).Some? ==>
        r == Failure(HttpError(409, "email exists"))
      ensures r.Success? <==> Truthy(email) && Truthy(password) && FindByEmail(old(users), email.value).None? && createOk
      ensures r.Success? ==>
        users == old(users) + [NewUser(newId, email.value, passwordHash, displayName, random, now)] &&
        r.value == UserView(newId, email.value, displayName, Some(false))
      ensures r.Failure? ==> users == old(users)
    {
      if !Truthy(email) || !Truthy(password) {
        return Failure(HttpError(400, "email & password required"));
      }
      if FindByEmail(users, email.value).Some? {
        return Failure(HttpError(409, "email exists"));
      }
      if !createOk {
        return Failure(HttpError(500, "server error"));
      }
      var user := NewUser(newId, email.value, passwordHash, displayName, random, now);
      users := users + [user];
      // The verification e-mail is sent here; its failure is only logged.
      r := Success(UserView(user.id, user.email, displayName, Some(false)));
    }

    /**
      GET /verify-email: the first user holding the live token is verified.
      `saveOk` is false when saving the user throws.
    */
    method VerifyEmail(token: Option<string>, now: int, saveOk: bool) returns (r: Result<string, HttpError>)
      modifies this
      ensures !Truthy(token) ==> r == Failure(HttpError(400, "token required"))
      ensures Truthy(token) && FindByToken(old(users), token.value, now).None? ==>
        r == Failure(HttpError(400, "Invalid or expired verification token"))
      ensures r.Success? <==> Truthy(token) && FindByToken(old(users), token.value, now).Some? && saveOk
      ensures r.Success? ==>
        var k := FindByToken(old(users), token.value, now).value;
        users == old(users)[k := MarkVerified(old(users)[k])]
      ensures r.Failure? ==> users == old(users)
    {
      if !Truthy(token) {
        return Failure(HttpError(400, "token required"));
      }
      var found := FindByToken(users, token.value, now);
      if found.None? {
        return Failure(HttpError(400, "Invalid or expired verification token"));
      }
      if !saveOk {
        return Failure(HttpError(500, "server error"));
      }
      var k := found.value;
      users := users[k := MarkVerified(users[k])];
      r := Success("Email verified successfully. You can now login.");
    }
  }

  /** Verifying clears the token, so a token nobody else holds works only once. */
  lemma TokenWorksOnce(users: seq<User>, token: string, now: int, later: int)
    requires FindByToken(users, token, now).Some?
    requires forall j :: 0 <= j < |users| && j != FindByToken(users, token, now).value ==>
      users[j].verificationToken != Some(token)
    ensures var k := FindByToken(users, token, now).value;
      FindByToken(users[k := MarkVerified(users[k])], token, later).None?
  {
    var k := FindByToken(users, token, now).value;
    var after := users[k := MarkVerified(users[k])];
    forall j | 0 <= j < |after|
      ensures !HoldsLiveToken(after[j], token, later)
    {
    }
  }

  /**
    The intended path: a new e-mail registers, its token verifies it within
    24 hours, and the right password then logs in with claims for that user.
  */
  lemma RegisterVerifyLogin(users: seq<User>, email: string, password: string, displayName: Option<string>,
                            newId: string, passwordHash: string, random: seq<byte>, now: int, later: int,
                            check: (string, string) -> bool, sign: Claims -> string, loginAt: int)
    requires |random| == 32 && email != "" && password != ""
    requires FindByEmail(users, email).None?
    requires FindByToken(users, Hex(random), later).None?
    requires later < now + VerificationWindow
    requires check(password, passwordHash)
    ensures var registered := users + [NewUser(newId, email, passwordHash, displayName, random, now)];
      FindByToken(registered, Hex(random), later) == Some(|users|) &&
      var verified := registered[|users| := MarkVerified(registered[|users|])];
      Login(verified, Some(email), Some(password), check, sign, loginAt).Success? &&
      Login(verified, Some(email), Some(password), check, sign, loginAt).value.claims.id == newId
  {
    var registered := users + [NewUser(newId, email, passwordHash, displayName, random, now)];
    assert registered[..|registered| - 1] == users;
    var verified := registered[|users| := MarkVerified(registered[|users|])];
    assert verified[..|verified| - 1] == users;
  }

  /** Until verified, the right password still gets `email_not_verified`. */
  lemma UnverifiedCannotLogIn(users: seq<User>, email: string, password: string,
                              check: (string, string) -> bool, sign: Claims -> string, now: int)
    requires email != "" && password != "" && FindByEmail(users, email).Some?
    requires var u := users[FindByEmail(users, email).value];
      !u.emailVerified && u.passwordHash.Some? && check(password, u.passwordHash.value)
    ensures Login(users, Some(email), Some(password), check, sign, now) == Failure(HttpError(401, "email_not_verified"))
  {
  }
}
