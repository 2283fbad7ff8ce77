/**
  The history route: the messages of one conversation, optionally older than
  `before`, newest first up to `limit`, returned oldest first.
*/
module MessagesRoute {
  import opened Wrappers
  import opened Wire
  import opened JsText
  import opened Ordering

  const DefaultLimit := 50

  datatype Response = Ok(body: seq<StoredMessage>) | Error(status: nat, error: string)

  function TsOf(m: StoredMessage): int {
    m.ts
  }

  predicate Wanted(m: StoredMessage, conversationId: string, before: Option<int>) {
    m.conversationId == conversationId && (before.None? || m.ts < before.value)
  }

  /** The store's `find(q)`: the matching documents, in store order. */
  function Matching(store: seq<StoredMessage>, conversationId: string, before: Option<int>): (r: seq<StoredMessage>)
    ensures forall i :: 0 <= i < |r| ==> Wanted(r[i], conversationId, before)
    ensures multiset(r) <= multiset(store)
    ensures forall i :: 0 <= i < |store| && Wanted(store[i], conversationId, before) ==> store[i] in r
  {
    if |store| == 0 then []
    else
      assert store == [store[0]] + store[1..];
      (if Wanted(store[0], conversationId, before) then [store[0]] else []) + Matching(store[1..], conversationId, before)
  }

  /** `limit(parseInt(limit, 10))`; the query string's absent limit is 50. `None` is `NaN`. */
  function LimitOf(limit: Option<string>): Option<int> {
    if limit.None? then Some(DefaultLimit) else ParseInt10(limit.value)
  }

  /** How many documents the store returns for a numeric limit: 0 means no limit, a negative limit its absolute value. */
  function Count(n: int, available: nat): (k: nat)
    ensures k <= available
    ensures n > 0 ==> k <= n
    ensures n != 0 && (if n > 0 then n else -n) >= available ==> k == available
    ensures n != 0 && (if n > 0 then n else -n) < available ==> k == (if n > 0 then n else -n)
    ensures n == 0 ==> k == available
  {
    var cap := if n >= 0 then n else -n;
    if n == 0 || cap >= available then available else cap
  }

  /** `.sort({ ts: -1 }).limit(n)`, then reversed: the newest `n` matches, oldest first. */
  function Newest(matches: seq<StoredMessage>, n: int): (r: seq<StoredMessage>)
    ensures SortedAsc(r, TsOf)
    ensures multiset(r) <= multiset(matches)
    ensures n > 0 ==> |r| <= n
    ensures n == 0 ==> multiset(r) == multiset(matches)
    ensures |r| == Count(n, |matches|)
  {
    var newest := SortDesc(matches, TsOf);
    var k := Count(n, |newest|);
    NewestPrefix(newest, k);
    Reverse(newest[..k])
  }

  /** The first `k` of a newest-first list, reversed: oldest first and drawn from the list. */
  lemma NewestPrefix(newest: seq<StoredMessage>, k: nat)
    requires SortedDesc(newest, TsOf) && k <= |newest|
    ensures SortedAsc(Reverse(newest[..k]), TsOf)
    ensures multiset(Reverse(newest[..k])) <= multiset(newest)
    ensures k == |newest| ==> multiset(Reverse(newest[..k])) == multiset(newest)
  {
    ReverseSortedDesc(newest[..k], TsOf);
    ReverseMultiset(newest[..k]);
    assert newest == newest[..k] + newest[k..];
  }

  /** Every match left out is no newer than every document kept. */
  lemma NewestKept(matches: seq<StoredMessage>, n: int)
    ensures forall x: StoredMessage, y: StoredMessage ::
      x in multiset(matches) - multiset(Newest(matches, n)) && y in Newest(matches, n) ==> x.ts <= y.ts
  {
    var newest := SortDesc(matches, TsOf);
    var k := Count(n, |newest|);
    var body := Newest(matches, n);
    assert body == Reverse(newest[..k]);
    ReverseMultiset(newest[..k]);
    PrefixKeepsLargest(newest, TsOf, k);
    forall y | y in body
      ensures y in newest[..k]
    {
      assert y in multiset(body);
    }
  }

  /**
    GET /api/messages. `before` is the query's date already parsed to
    milliseconds; `storeUp` is false when the query throws.
  */
  function History(store: seq<StoredMessage>, conversationId: Option<string>, limit: Option<string>,
                   before: Option<int>, storeUp: bool): (r: Response)
    ensures !Truthy(conversationId) ==> r == Error(400, "conversationId required")
    ensures Truthy(conversationId) && (!storeUp || LimitOf(limit).None?) ==> r == Error(500, "server_error")
    ensures r.Ok? ==> Truthy(conversationId) && storeUp && LimitOf(limit).Some?
    ensures r.Ok? ==> forall i :: 0 <= i < |r.body| ==> Wanted(r.body[i], conversationId.value, before)
    ensures r.Ok? ==> SortedAsc(r.body, TsOf)
    ensures r.Ok? && LimitOf(limit).value > 0 ==> |r.body| <= LimitOf(limit).value
    ensures r.Ok? ==> r.body == Newest(Matching(store, conversationId.value, before), LimitOf(limit).value)
    ensures r.Ok? ==> multiset(r.body) <= multiset(Matching(store, conversationId.value, before))
    ensures r.Ok? ==> |r.body| == Count(LimitOf(limit).value, |Matching(store, conversationId.value, before)|)
    ensures r.Ok? ==> forall x: StoredMessage, y: StoredMessage ::
      x in multiset(Matching(store, conversationId.value, before)) - multiset(r.body) && y in r.body ==> x.ts <= y.ts
  {
    if !Truthy(conversationId) then Error(400, "conversationId required")
    else if !storeUp || LimitOf(limit).None? then Error(500, "server_error")
    else
      var matches := Matching(store, conversationId.value, before);
      var body := Newest(matches, LimitOf(limit).value);
      assert forall i :: 0 <= i < |body| ==> body[i] in multiset(matches);
      NewestKept(matches, LimitOf(limit).value);
      Ok(body)
  }

  /** Without an explicit limit at most 50 documents come back. */
  lemma DefaultLimitIs50(store: seq<StoredMessage>, conversationId: Option<string>, before: Option<int>)
    requires History(store, conversationId, None, before, true).Ok?
    ensures |History(store, conversationId, None, before, true).body| <= 50
  {
  }

  lemma ParseZero()
    ensures ParseInt10("0") == Some(0)
  {
    var zero := "0";
    assert TrimStart(zero) == zero by { assert !IsJsWhitespace(zero[0]); }
    assert DigitPrefix(zero, 10) == zero by {
      assert IsDigitIn(zero[0], 10) && zero[1..] == "";
    }
    assert DigitsValue(zero, 10) == 0 by { assert zero[..0] == ""; }
  }

  /** With a limit of 0 every match comes back. */
  lemma ZeroLimitReturnsAll(store: seq<StoredMessage>, conversationId: Option<string>, before: Option<int>)
    requires Truthy(conversationId)
    ensures var r := History(store, conversationId, Some("0"), before, true);
      r.Ok? && multiset(r.body) == multiset(Matching(store, conversationId.value, before))
  {
    ParseZero();
  }
}
