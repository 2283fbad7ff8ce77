/**
  `getOrCreateUser`: find the user record for an external (Clerk) id, create
  it when missing, or bring its e-mail up to date. The store's connection
  state and a failing store call are parameters.
*/
module UserHelper {
  import opened Wrappers
  import opened JsText

  datatype ClerkUser = ClerkUser(clerkId: string, email: string)

  /** The error names the helper maps to a connection error. */
  predicate IsConnectionError(name: string) {
    name == "MongoServerError" || name == "MongoNetworkError"
  }

  const Required := "clerkId and email are required"
  const NotConnected := "MongoDB is not connected. Please check your MONGO_URI and ensure MongoDB is running."
  const ConnectionLost := "Database connection error. Please check MongoDB connection."

  /** A thrown error: its name and its message. */
  datatype Thrown = Thrown(name: string, message: string)

  /** `findOne({ clerkId })`: the position of the first user with that id. */
  function FindByClerkId(users: seq<ClerkUser>, clerkId: string): (k: Option<nat>)
    ensures k.Some? ==> k.value < |users| && users[k.value].clerkId == clerkId
    ensures k.Some? ==> forall j :: 0 <= j < k.value ==> users[j].clerkId != clerkId
    ensures k.None? <==> forall j :: 0 <= j < |users| ==> users[j].clerkId != clerkId
  {
    if |users| == 0 then None
    else if users[0].clerkId == clerkId then Some(0)
    else match FindByClerkId(users[1..], clerkId)
      case None => None
      case Some(k) => Some(k + 1)
  }

  /** The store after a successful call: a new record, an updated e-mail, or nothing changed. */
  function Upserted(users: seq<ClerkUser>, clerkId: string, email: string): (r: seq<ClerkUser>)
    ensures |users| <= |r| <= |users| + 1
    ensures forall u :: u in r ==> u in users || u == ClerkUser(clerkId, email)
  {
    match FindByClerkId(users, clerkId)
    case None => users + [ClerkUser(clerkId, email)]
    case Some(k) => if users[k].email != email then users[k := ClerkUser(clerkId, email)] else users
  }

  /**
    The upsert creates at most one record and touches no other record; the
    first record with the id then carries the given e-mail.
  */
  lemma UpsertedShape(users: seq<ClerkUser>, clerkId: string, email: string)
    ensures var after := Upserted(users, clerkId, email);
      FindByClerkId(after, clerkId).Some? &&
      after[FindByClerkId(after, clerkId).value] == ClerkUser(clerkId, email) &&
      (FindByClerkId(users, clerkId).None? ==> after == users + [ClerkUser(clerkId, email)]) &&
      (FindByClerkId(users, clerkId).Some? ==> |after| == |users|) &&
      (FindByClerkId(users, clerkId).Some? ==>
        forall j :: 0 <= j < |users| && j != FindByClerkId(users, clerkId).value ==> after[j] == users[j])
  {
    var after := Upserted(users, clerkId, email);
    if FindByClerkId(users, clerkId).None? {
      assert after[|users|] == ClerkUser(clerkId, email);
      assert FindByClerkId(after, clerkId).value == |users|;
    } else {
      var k := FindByClerkId(users, clerkId).value;
      assert after[k] == ClerkUser(clerkId, email);
      assert FindByClerkId(after, clerkId).value == k;
    }
  }

  /** Calling again with the same arguments changes nothing: repeated calls create at most one user. */
  lemma UpsertedIdempotent(users: seq<ClerkUser>, clerkId: string, email: string)
    ensures Upserted(Upserted(users, clerkId, email), clerkId, email) == Upserted(users, clerkId, email)
  {
    UpsertedShape(users, clerkId, email);
  }

  /** The user collection, restricted to the two fields the helper writes. */
  class ClerkUsers {
    var users: seq<ClerkUser>

    constructor(users: seq<ClerkUser>)
      ensures this.users == users
    {
      this.users := users;
    }

    /**
      `getOrCreateUser(clerkId, email)`. `connected` is the store's ready
      state; `storeError`, when present, is the error the first store call
      throws (taken to write nothing).
    */
    method GetOrCreateUser(clerkId: Option<string>, email: Option<string>, connected: bool, storeError: Option<Thrown>)
      returns (r: Result<ClerkUser, Thrown>)
      modifies this
      ensures !Truthy(clerkId) || !Truthy(email) ==> r == Failure(Thrown("Error", Required))
      ensures Truthy(clerkId) && Truthy(email) && !connected ==>
        r == Failure(Thrown("Error", NotConnected))
      ensures Truthy(clerkId) && Truthy(email) && connected && storeError.Some? ==>
        r == Failure(if IsConnectionError(storeError.value.name)
                     then Thrown("Error", ConnectionLost)
                     else storeError.value)
      ensures r.Success? <==> Truthy(clerkId) && Truthy(email) && connected && storeError.None?
      ensures r.Success? ==> r.value == ClerkUser(clerkId.value, email.value)
      ensures r.Success? ==> users == Upserted(old(users), clerkId.value, email.value)
      ensures r.Failure? ==> users == old(users)
    {
      if !Truthy(clerkId) || !Truthy(email) {
        return Failure(Thrown("Error", Required));
      }
      if !connected {
        return Failure(Thrown("Error", NotConnected));
      }
      if storeError.Some? {
        if IsConnectionError(storeError.value.name) {
          return Failure(Thrown("Error", ConnectionLost));
        }
        return Failure(storeError.value);
      }
      var found := FindByClerkId(users, clerkId.value);
      if found.None? {
        users := users + [ClerkUser(clerkId.value, email.value)];
      } else if users[found.value].email != email.value {
        users := users[found.value := users[found.value].(email := email.value)];
      }
      r := Success(ClerkUser(clerkId.value, email.value));
    }
  }
}
