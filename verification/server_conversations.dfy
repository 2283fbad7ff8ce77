/**
  The conversation routes of the standalone server: the same creation and
  listing as the socket server's routes, behind the two-word `requireAuth`,
  with a conversation schema whose `title` is required.
*/
module ServerConversations {
  import opened Wrappers
  import opened Wire
  import opened JsText
  import opened Ordering
  import ServerAuthMiddleware
  import Conversations

  /**
    POST /. The schema's required `title` refuses a missing or empty title,
    which the route reports like any other failure of the create.
  */
  method Create(store: Conversations.ConversationStore, header: Option<string>, verify: string -> Option<Claims>,
                title: Option<string>, participantEmails: Option<seq<string>>,
                directory: seq<Conversations.UserDoc>, created: Option<string>, now: int)
    returns (r: Result<Conversations.Conversation, HttpError>)
    modifies store
    ensures ServerAuthMiddleware.RequireAuth(header, verify).Failure? ==>
      r == Failure(ServerAuthMiddleware.Unauthenticated)
    ensures ServerAuthMiddleware.RequireAuth(header, verify).Success? && !Truthy(title) ==>
      r == Failure(HttpError(500, "create_failed"))
    ensures r.Failure? ==> store.conversations == old(store.conversations)
    ensures r.Success? <==>
      ServerAuthMiddleware.RequireAuth(header, verify).Success? && Truthy(title) && created.Some?
    ensures r.Success? ==>
      var user := ServerAuthMiddleware.RequireAuth(header, verify).value;
      r.value.createdBy == user.id && r.value.title == title &&
      r.value.participants ==
        Conversations.WithCreator(Conversations.MatchedIds(directory, participantEmails.GetOr([])), user.id) &&
      store.conversations == old(store.conversations) + [r.value]
  {
    var auth := ServerAuthMiddleware.RequireAuth(header, verify);
    if auth.Failure? {
      return Failure(auth.error);
    }
    if !Truthy(title) {
      return Failure(HttpError(500, "create_failed"));
    }
    r := store.Create(auth.value.id, title, participantEmails, directory, created, now);
  }

  /** GET /: the caller's conversations, newest first. */
  function List(all: seq<Conversations.Conversation>, header: Option<string>, verify: string -> Option<Claims>,
                storeUp: bool): (r: Result<seq<Conversations.Conversation>, HttpError>)
    ensures ServerAuthMiddleware.RequireAuth(header, verify).Failure? ==> r == Failure(ServerAuthMiddleware.Unauthenticated)
    ensures ServerAuthMiddleware.RequireAuth(header, verify).Success? && !storeUp ==>
      r == Failure(HttpError(500, "list_failed"))
    ensures r.Success? <==> ServerAuthMiddleware.RequireAuth(header, verify).Success? && storeUp
    ensures r.Success? ==>
      var user := ServerAuthMiddleware.RequireAuth(header, verify).value;
      SortedDesc(r.value, Conversations.CreatedAtOf) &&
      multiset(r.value) == multiset(Conversations.Including(all, user.id)) &&
      forall i :: 0 <= i < |r.value| ==> user.id in r.value[i].participants
  {
    var auth := ServerAuthMiddleware.RequireAuth(header, verify);
    if auth.Failure? then Failure(auth.error)
    else Conversations.List(all, auth.value.id, storeUp)
  }
}
