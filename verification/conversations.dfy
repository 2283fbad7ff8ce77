/**
  The conversation routes of the socket server: a development `requireAuth`,
  creation with the creator always among the participants, the caller's list
  newest first, and the participant-only fetch by id.
*/
module Conversations {
  import opened Wrappers
  import opened Wire
  import opened JsText
  import opened Ordering

  datatype Conversation = Conversation(id: string, title: Option<string>, participants: seq<string>, createdBy: string, createdAt: int)

  /** A user document as the email lookup returns it. */
  datatype UserDoc = UserDoc(id: string, email: string)

  /**
    The development `requireAuth`: an existing `req.user` passes, otherwise the
    `x-dev-user` header becomes the user id, otherwise 401.
  */
  function DevRequireAuth(reqUser: Option<string>, devUser: Option<string>): (r: Result<string, HttpError>)
    ensures reqUser.Some? ==> r == Success(reqUser.value)
    ensures reqUser.None? && Truthy(devUser) ==> r == Success(devUser.value)
    ensures reqUser.None? && !Truthy(devUser) ==> r == Failure(HttpError(401, "unauthenticated"))
  {
    if reqUser.Some? then Success(reqUser.value)
    else if Truthy(devUser) then Success(devUser.value)
    else Failure(HttpError(401, "unauthenticated"))
  }

  /** `User.find({ email: { $in: emails } })` mapped to ids, in directory order. */
  function MatchedIds(directory: seq<UserDoc>, emails: seq<string>): (r: seq<string>)
    ensures |r| <= |directory|
    ensures |emails| == 0 ==> r == []
    ensures forall i :: 0 <= i < |directory| && directory[i].email in emails ==> directory[i].id in r
    ensures forall x :: x in r ==> exists u :: u in directory && u.email in emails && u.id == x
  {
    if |directory| == 0 then []
    else
      var rest := MatchedIds(directory[1..], emails);
      var r := (if directory[0].email in emails then [directory[0].id] else []) + rest;
      assert forall i :: 1 <= i < |directory| ==> directory[i] == directory[1..][i - 1];
      forall x | x in r
        ensures exists u :: u in directory && u.email in emails && u.id == x
      {
        if x !in rest {
          assert directory[0] in directory;
        } else {
          var u :| u in directory[1..] && u.email in emails && u.id == x;
          assert u in directory;
        }
      }
      r
  }

  /** The participant list: the matched ids, with the creator pushed only when absent. */
  function WithCreator(ids: seq<string>, creator: string): (r: seq<string>)
    ensures |ids| <= |r| && r[..|ids|] == ids && creator in r
    ensures forall x :: x in r <==> x in ids || x == creator
  {
    if creator in ids then ids else ids + [creator]
  }

  function Occurrences(s: seq<string>, x: string): nat {
    if |s| == 0 then 0 else (if s[0] == x then 1 else 0) + Occurrences(s[1..], x)
  }

  predicate DistinctUserIds(directory: seq<UserDoc>) {
    forall i, j :: 0 <= i < j < |directory| ==> directory[i].id != directory[j].id
  }

  lemma {:induction false} OccurrencesAppend(a: seq<string>, b: seq<string>, x: string)
    ensures Occurrences(a + b, x) == Occurrences(a, x) + Occurrences(b, x)
    decreases |a|
  {
    if |a| > 0 {
      assert (a + b)[0] == a[0] && (a + b)[1..] == a[1..] + b;
      OccurrencesAppend(a[1..], b, x);
    } else {
      assert a + b == b;
    }
  }

  lemma {:induction false} OccurrencesAbsent(s: seq<string>, x: string)
    requires x !in s
    ensures Occurrences(s, x) == 0
    decreases |s|
  {
    if |s| > 0 {
      OccurrencesAbsent(s[1..], x);
    }
  }

  lemma DistinctTail(directory: seq<UserDoc>)
    requires |directory| > 0 && DistinctUserIds(directory)
    ensures DistinctUserIds(directory[1..])
    ensures forall i :: 1 <= i < |directory| ==> directory[i].id != directory[0].id
  {
    forall i, j | 0 <= i < j < |directory[1..]|
      ensures directory[1..][i].id != directory[1..][j].id
    {
      assert directory[1..][i] == directory[i + 1] && directory[1..][j] == directory[j + 1];
    }
  }

  lemma {:induction false} IdOutsideNotMatched(directory: seq<UserDoc>, emails: seq<string>, x: string)
    requires forall i :: 0 <= i < |directory| ==> directory[i].id != x
    ensures x !in MatchedIds(directory, emails)
  {
  }

  lemma TailIdsDiffer(directory: seq<UserDoc>)
    requires |directory| > 0 && DistinctUserIds(directory)
    ensures forall i :: 0 <= i < |directory[1..]| ==> directory[1..][i].id != directory[0].id
  {
  }

  /** With distinct user ids, an id occurs at most once among the matched ids. */
  lemma {:induction false} MatchedIdsAtMostOnce(directory: seq<UserDoc>, emails: seq<string>, x: string)
    requires DistinctUserIds(directory)
    ensures Occurrences(MatchedIds(directory, emails), x) <= 1
    decreases |directory|
  {
    if |directory| > 0 {
      var head := if directory[0].email in emails then [directory[0].id] else [];
      var rest := MatchedIds(directory[1..], emails);
      assert MatchedIds(directory, emails) == head + rest;
      DistinctTail(directory);
      MatchedIdsAtMostOnce(directory[1..], emails, x);
      OccurrencesAppend(head, rest, x);
      if head == [x] {
        TailIdsDiffer(directory);
        IdOutsideNotMatched(directory[1..], emails, x);
        OccurrencesAbsent(rest, x);
      } else {
        assert Occurrences(head, x) == 0;
      }
    }
  }

  /**
    The creator is a participant exactly once, provided user ids are distinct;
    every other participant is a user matched by email, and every matched user
    is a participant.
  */
  lemma CreatorExactlyOnce(directory: seq<UserDoc>, emails: seq<string>, creator: string)
    requires DistinctUserIds(directory)
    ensures Occurrences(WithCreator(MatchedIds(directory, emails), creator), creator) == 1
    ensures forall x :: x in WithCreator(MatchedIds(directory, emails), creator) <==>
      x == creator || x in MatchedIds(directory, emails)
  {
    var ids := MatchedIds(directory, emails);
    MatchedIdsAtMostOnce(directory, emails, creator);
    if creator in ids {
      if Occurrences(ids, creator) == 0 {
        var k :| 0 <= k < |ids| && ids[k] == creator;
        OccurrencesPositive(ids, creator, k);
      }
    } else {
      OccurrencesAppend(ids, [creator], creator);
      OccurrencesAbsent(ids, creator);
    }
  }

  lemma {:induction false} OccurrencesPositive(s: seq<string>, x: string, k: nat)
    requires k < |s| && s[k] == x
    ensures Occurrences(s, x) >= 1
    decreases k
  {
    if k > 0 {
      OccurrencesPositive(s[1..], x, k - 1);
    }
  }

  function CreatedAtOf(c: Conversation): int {
    c.createdAt
  }

  function Including(all: seq<Conversation>, userId: string): (r: seq<Conversation>)
    ensures forall i :: 0 <= i < |r| ==> userId in r[i].participants
    ensures multiset(r) <= multiset(all)
    ensures forall i :: 0 <= i < |all| && userId in all[i].participants ==> all[i] in r
  {
    if |all| == 0 then []
    else
      assert all == [all[0]] + all[1..];
      (if userId in all[0].participants then [all[0]] else []) + Including(all[1..], userId)
  }

  /** GET /: the caller's conversations, newest first; a store failure is a 500. */
  function List(all: seq<Conversation>, userId: string, storeUp: bool): (r: Result<seq<Conversation>, HttpError>)
    ensures !storeUp <==> r == Failure(HttpError(500, "list_failed"))
    ensures r.Success? ==> SortedDesc(r.value, CreatedAtOf)
    ensures r.Success? ==> multiset(r.value) == multiset(Including(all, userId))
    ensures r.Success? ==> forall i :: 0 <= i < |r.value| ==> userId in r.value[i].participants
  {
    if !storeUp then Failure(HttpError(500, "list_failed"))
    else
      var mine := SortDesc(Including(all, userId), CreatedAtOf);
      assert forall i :: 0 <= i < |mine| ==> mine[i] in multiset(Including(all, userId));
      Success(mine)
  }

  function FindById(all: seq<Conversation>, id: string): (r: Option<Conversation>)
    ensures r.Some? ==> r.value in all && r.value.id == id
    ensures r.None? ==> forall i :: 0 <= i < |all| ==> all[i].id != id
  {
    if |all| == 0 then None
    else if all[0].id == id then Some(all[0])
    else FindById(all[1..], id)
  }

  /** GET /:id: 404 when absent, 403 for a caller who is not a participant. */
  function Get(all: seq<Conversation>, id: string, userId: string, storeUp: bool): (r: Result<Conversation, HttpError>)
    ensures !storeUp ==> r == Failure(HttpError(500, "fetch_failed"))
    ensures storeUp && FindById(all, id).None? ==> r == Failure(HttpError(404, "not_found"))
    ensures storeUp && FindById(all, id).Some? && userId !in FindById(all, id).value.participants ==>
      r == Failure(HttpError(403, "forbidden"))
    ensures r.Success? <==> storeUp && FindById(all, id).Some? && userId in FindById(all, id).value.participants
    ensures r.Success? ==> r.value.id == id && r.value in all && userId in r.value.participants
  {
    if !storeUp then Failure(HttpError(500, "fetch_failed"))
    else match FindById(all, id)
      case None => Failure(HttpError(404, "not_found"))
      case Some(c) =>
        if userId !in c.participants then Failure(HttpError(403, "forbidden"))
        else Success(c)
  }

  /** The conversation collection. */
  class ConversationStore {
    var conversations: seq<Conversation>

    constructor()
      ensures conversations == []
    {
      conversations := [];
    }

    /**
      POST /: the matched ids, the creator pushed when absent, `createdBy` the
      caller. `created` is the store's outcome: the new id, or None when the
      lookup or the create throws.
    */
    method Create(userId: string, title: Option<string>, participantEmails: Option<seq<string>>,
                  directory: seq<UserDoc>, created: Option<string>, now: int)
      returns (r: Result<Conversation, HttpError>)
      modifies this
      ensures created.None? ==> r == Failure(HttpError(500, "create_failed")) && conversations == old(conversations)
      ensures created.Some? ==>
        r == Success(Conversation(created.value, title,
                                  WithCreator(MatchedIds(directory, participantEmails.GetOr([])), userId),
                                  userId, now)) &&
        conversations == old(conversations) + [r.value]
    {
      if created.None? {
        return Failure(HttpError(500, "create_failed"));
      }
      var userIds := MatchedIds(directory, participantEmails.GetOr([]));
      if userId !in userIds {
        userIds := userIds + [userId];
      }
      var convo := Conversation(created.value, title, userIds, userId, now);
      conversations := conversations + [convo];
      r := Success(convo);
    }
  }

  /** The POST route behind the development `requireAuth`. */
  method PostConversation(store: ConversationStore, reqUser: Option<string>, devUser: Option<string>,
                          title: Option<string>, participantEmails: Option<seq<string>>,
                          directory: seq<UserDoc>, created: Option<string>, now: int)
    returns (r: Result<Conversation, HttpError>)
    modifies store
    ensures DevRequireAuth(reqUser, devUser).Failure? ==>
      r == Failure(DevRequireAuth(reqUser, devUser).error) && store.conversations == old(store.conversations)
    ensures DevRequireAuth(reqUser, devUser).Success? && r.Success? ==>
      r.value.createdBy == DevRequireAuth(reqUser, devUser).value &&
      DevRequireAuth(reqUser, devUser).value in r.value.participants
    ensures DevRequireAuth(reqUser, devUser).Success? ==>
      (r.Success? <==> created.Some?) &&
      (r.Failure? ==> r.error == HttpError(500, "create_failed") && store.conversations == old(store.conversations)) &&
      (r.Success? ==> store.conversations == old(store.conversations) + [r.value])
  {
    var auth := DevRequireAuth(reqUser, devUser);
    if auth.Failure? {
      return Failure(auth.error);
    }
    r := store.Create(auth.value, title, participantEmails, directory, created, now);
  }
}
