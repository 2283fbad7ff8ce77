/**
  The conversation list page of the browser client: loading the list with its
  error and empty handling, parsing the comma-separated participant e-mails,
  the search filter, and the fallback title. The HTTP response, already read
  and parsed, is a parameter.
*/
module ConversationsPage {
  import opened Wrappers
  import opened JsText

  /** A conversation as the list shows it. */
  datatype Summary = Summary(id: string, title: Option<string>)

  // ---------------------------------------------------------------------------
  // Participant e-mails
  // ---------------------------------------------------------------------------

  function TrimAll(items: seq<string>): (r: seq<string>)
    ensures |r| == |items| && forall i :: 0 <= i < |items| ==> r[i] == Trim(items[i])
  {
    seq(|items|, i requires 0 <= i < |items| => Trim(items[i]))
  }

  /** `emails.split(',').map(e => e.trim()).filter(Boolean)`. */
  function ParticipantEmails(input: string): (r: seq<string>)
    ensures forall i :: 0 <= i < |r| ==> r[i] != "" && NoEdgeWhitespace(r[i]) && ',' !in r[i]
    ensures r == DropEmpty(TrimAll(Split(input, ',')))
    ensures forall x :: x != "" ==> multiset(r)[x] == multiset(TrimAll(Split(input, ',')))[x]
  {
    var parts := Split(input, ',');
    var trimmed := TrimAll(parts);
    forall i | 0 <= i < |trimmed|
      ensures NoEdgeWhitespace(trimmed[i]) && ',' !in trimmed[i]
    {
      assert ',' !in parts[i];
    }
    DropEmpty(trimmed)
  }

  /**
    Joining trimmed, non-empty addresses without commas by ',' and parsing
    the result gives them back in order.
  */
  lemma ParticipantEmailsOfJoin(emails: seq<string>)
    requires |emails| >= 1
    requires forall i :: 0 <= i < |emails| ==> emails[i] != "" && NoEdgeWhitespace(emails[i]) && ',' !in emails[i]
    ensures ParticipantEmails(Join(emails, ',')) == emails
  {
    SplitJoin(emails, ',');
    forall i | 0 <= i < |emails|
      ensures Trim(emails[i]) == emails[i]
    {
      TrimOfTrimmed(emails[i]);
    }
    assert TrimAll(emails) == emails;
    DropEmptyOfFull(emails);
  }

  /** An empty field gives no participants. */
  lemma NoParticipants()
    ensures ParticipantEmails("") == []
  {
    assert Split("", ',') == [""];
    assert Trim("") == "";
  }

  // ---------------------------------------------------------------------------
  // Search and title
  // ---------------------------------------------------------------------------

  /** The query, lowercased, occurs in the lowercased title or the lowercased id. */
  predicate Matches(c: Summary, query: string) {
    var q := ToLower(query);
    Contains(ToLower(OrElse(c.title, Some("")).value), q) || Contains(ToLower(c.id), q)
  }

  /** The conversations shown for the search field: all for an empty query, else the matches in order. */
  function Filtered(list: seq<Summary>, query: string): (r: seq<Summary>)
    ensures query == "" ==> r == list
    ensures |r| <= |list|
    ensures query != "" ==> forall i :: 0 <= i < |r| ==> r[i] in list && Matches(r[i], query)
    ensures query != "" ==> forall i :: 0 <= i < |list| && Matches(list[i], query) ==> list[i] in r
  {
    if |list| == 0 then []
    else if query == "" || Matches(list[0], query) then [list[0]] + Filtered(list[1..], query)
    else Filtered(list[1..], query)
  }

  /** Each kept conversation keeps its multiplicity; every other one is gone. */
  lemma {:induction false} FilteredCounts(list: seq<Summary>, query: string)
    ensures forall x :: multiset(Filtered(list, query))[x] == if query == "" || Matches(x, query) then multiset(list)[x] else 0
  {
    if |list| > 0 {
      FilteredCounts(list[1..], query);
      assert list == [list[0]] + list[1..];
      assert multiset(list) == multiset{list[0]} + multiset(list[1..]);
    }
  }

  /** Filtering keeps the order of the list: it distributes over concatenation. */
  lemma {:induction false} FilteredAppend(a: seq<Summary>, b: seq<Summary>, query: string)
    ensures Filtered(a + b, query) == Filtered(a, query) + Filtered(b, query)
    decreases |a|
  {
    if |a| == 0 {
      assert a + b == b;
    } else {
      assert (a + b)[0] == a[0] && (a + b)[1..] == a[1..] + b;
      FilteredAppend(a[1..], b, query);
    }
  }

  /** Filtering the filtered list by the same query changes nothing. */
  lemma {:induction false} FilteredIdempotent(list: seq<Summary>, query: string)
    ensures Filtered(Filtered(list, query), query) == Filtered(list, query)
  {
    if |list| > 0 {
      FilteredIdempotent(list[1..], query);
      if query == "" || Matches(list[0], query) {
        assert ([list[0]] + Filtered(list[1..], query))[1..] == Filtered(list[1..], query);
      }
    }
  }

  /** `id.slice(-6)`: the last six characters, or all of a shorter id. */
  function LastSix(id: string): (r: string)
    ensures |r| == if |id| < 6 then |id| else 6
    ensures id == id[..|id| - |r|] + r
  {
    if |id| <= 6 then id else id[|id| - 6..]
  }

  /** The title shown: the title when set, else `Conversation <last 6 characters of the id>`. */
  function DisplayTitle(c: Summary): (r: string)
    ensures Truthy(c.title) ==> r == c.title.value
    ensures !Truthy(c.title) ==> StartsWith(r, "Conversation ") && |r| == 13 + |LastSix(c.id)|
  {
    if Truthy(c.title) then c.title.value else "Conversation " + LastSix(c.id)
  }

  // ---------------------------------------------------------------------------
  // Loading
  // ---------------------------------------------------------------------------

  /** A parsed response body: none, text that is not JSON, a JSON array of conversations, or other JSON. */
  datatype Body = NoBody | Text(text: string) | List(items: seq<Summary>) | OtherJson(json: string)

  /** The outcome of the fetch. */
  datatype Response = NetworkFailure | Reply(ok: bool, status: int, body: Body)

  /** The error the page keeps. */
  datatype PageError = NoToken | Failed(status: int, body: Body) | Unreachable

  /** The error kept for a response that is not a list: an empty body of an ok reply shows as "<empty>". */
  function ErrorOf(response: Response): PageError {
    match response
    case NetworkFailure => Unreachable
    case Reply(ok, status, body) =>
      if ok && body == NoBody then Failed(status, Text("<empty>")) else Failed(status, body)
  }

  class Page {
    var list: seq<Summary>
    var loading: bool
    var error: Option<PageError>

    constructor()
      ensures list == [] && loading && error == None
    {
      list, loading, error := [], true, None;
    }

    /**
      The load effect. Without a token the page shows the error at once; with
      one it fetches, and once the response is in — if still `mounted` — it
      shows the list, or an empty list with the error.
    */
    method Load(token: Option<string>, response: Response, mounted: bool)
      modifies this
      ensures !Truthy(token) ==> error == Some(NoToken) && !loading && list == []
      ensures Truthy(token) && !mounted ==> error == None && loading && list == old(list)
      ensures Truthy(token) && mounted ==> !loading
      ensures Truthy(token) && mounted ==>
        (error.None? <==> response.Reply? && response.ok && response.body.List?)
      ensures Truthy(token) && mounted && error.None? ==> list == response.body.items
      ensures Truthy(token) && mounted && error.Some? ==> list == [] && error.value == ErrorOf(response)
    {
      if !Truthy(token) {
        error := Some(NoToken);
        loading := false;
        list := [];
        return;
      }
      loading := true;
      error := None;
      if !mounted {
        return;
      }
      match response
      case NetworkFailure =>
        error, list, loading := Some(Unreachable), [], false;
      case Reply(ok, status, body) =>
        if !ok {
          error, list, loading := Some(Failed(status, body)), [], false;
        } else if !body.List? {
          var shown := if body == NoBody then Text("<empty>") else body;
          error, list, loading := Some(Failed(status, shown)), [], false;
        } else {
          list, loading := body.items, false;
        }
    }
  }
}
