/**
  The chat page: the send-or-enqueue helper, the live `message` handler that
  deduplicates by `_id`, status overwrites, unread selection, history
  decryption, the typing-user list and date-separator grouping.
  Decryption (AES-GCM) is a parameter returning an optional plaintext.
*/
module Chat {
  import opened Wrappers
  import opened Wire
  import opened JsText
  import OfflineQueue
  import Base64
  import CryptoKeyManager

  /** The text shown for a message whose decryption failed. */
  const Sentinel := "<unable to decrypt>"

  /**
    `importKeyFromBase64`: the raw key bytes of the conversation key. A missing
    key, text `atob` rejects, or a length AES-GCM refuses (other than 16, 24
    or 32 bytes) throws; a 16- or 24-byte key imports but fails the page's own
    32-byte check.
  */
  function ImportKeyFromBase64(b64: Option<string>): (r: Result<seq<byte>, string>)
    ensures !Truthy(b64) ==> r == Failure("missing key")
    ensures r.Success? <==>
      Truthy(b64) && Base64.Decode(b64.value).Some? && |Base64.Decode(b64.value).value| == 32
    ensures r.Success? ==> r.value == Base64.Decode(b64.value).value
  {
    if !Truthy(b64) then Failure("missing key")
    else match Base64.Decode(b64.value)
      case None => Failure("InvalidCharacterError")
      case Some(raw) =>
        if |raw| != 16 && |raw| != 24 && |raw| != 32 then Failure("DataError")
        else if |raw| != 32 then Failure("invalid key length")
        else Success(raw)
  }

  /** Every key the shared key manager accepts, trimmed as it stores it, imports on this page too. */
  lemma ManagedKeyImports(key: string)
    requires CryptoKeyManager.ValidateKey(Some(key)) && Trim(key) == key
    ensures ImportKeyFromBase64(Some(key)).Success?
  {
    CryptoKeyManager.ValidKeyBuffer(key);
  }

  /** `String(m._id)`: the key messages are deduplicated and matched on. */
  function IdKey(m: ClientMessage): string {
    ToStr(m.id)
  }

  /** `m.fromEmail || m.from`. */
  function Sender(m: ClientMessage): Option<string> {
    OrElse(m.fromEmail, m.from)
  }

  /** A delivered receipt is due: the sender is known and is not the current user, ignoring case. */
  predicate FromOther(m: ClientMessage, me: string) {
    Truthy(Sender(m)) && ToLower(Sender(m).value) != ToLower(me)
  }

  /** `isMyMessage`. */
  predicate IsMyMessage(m: ClientMessage, me: string) {
    me != "" && Truthy(Sender(m)) && ToLower(Sender(m).value) == ToLower(me)
  }

  /** A message of mine is never one from another sender; with a known sender and a signed-in user the two are complementary. */
  lemma MineIsNotOther(m: ClientMessage, me: string)
    ensures IsMyMessage(m, me) ==> !FromOther(m, me)
    ensures me != "" && Truthy(Sender(m)) ==> (IsMyMessage(m, me) <==> !FromOther(m, me))
  {
  }

  /** `pt ?? '<unable to decrypt>'` for a record carrying ciphertext and iv; other records keep their text. */
  function Decrypted(m: ClientMessage, decrypt: (string, string) -> Option<string>): (r: ClientMessage)
    ensures r == m.(text := r.text)
    ensures !(Truthy(m.ciphertext) && Truthy(m.iv)) ==> r == m
    ensures Truthy(m.ciphertext) && Truthy(m.iv) ==>
      r.text == Some(if decrypt(m.ciphertext.value, m.iv.value).Some? then decrypt(m.ciphertext.value, m.iv.value).value else Sentinel)
  {
    if Truthy(m.ciphertext) && Truthy(m.iv) then
      m.(text := Some(decrypt(m.ciphertext.value, m.iv.value).GetOr(Sentinel)))
    else m
  }

  /** A live message as it is appended: decrypted as history is, with the status defaulting to `Sent`. */
  function Incoming(m: ClientMessage, decrypt: (string, string) -> Option<string>): (r: ClientMessage)
    ensures IdKey(r) == IdKey(m) && Sender(r) == Sender(m) && r.ts == m.ts
    ensures r.status.Some? && (m.status.Some? ==> r.status == m.status)
    ensures r.text == Decrypted(m, decrypt).text
  {
    Decrypted(m, decrypt).(status := if m.status.Some? then m.status else Some(Sent))
  }

  predicate Holds(held: seq<ClientMessage>, key: string) {
    exists i :: 0 <= i < |held| && IdKey(held[i]) == key
  }

  /** The `message` handler's new list: unchanged for a known `_id`, otherwise the message appended. */
  function Merge(held: seq<ClientMessage>, m: ClientMessage, decrypt: (string, string) -> Option<string>): (r: seq<ClientMessage>)
    ensures |held| <= |r| <= |held| + 1 && r[..|held|] == held
  {
    if Holds(held, IdKey(m)) then held else held + [Incoming(m, decrypt)]
  }

  predicate DistinctIds(held: seq<ClientMessage>) {
    forall i, j :: 0 <= i < j < |held| ==> IdKey(held[i]) != IdKey(held[j])
  }

  /**
    The handler never adds a duplicate `_id`: merged lists keep distinct keys,
    a known key leaves the list as it was, and a fresh message lands at the end.
  */
  lemma MergeKeepsIdsDistinct(held: seq<ClientMessage>, m: ClientMessage, decrypt: (string, string) -> Option<string>)
    requires DistinctIds(held)
    ensures DistinctIds(Merge(held, m, decrypt))
    ensures Holds(held, IdKey(m)) ==> Merge(held, m, decrypt) == held
    ensures !Holds(held, IdKey(m)) ==>
      |Merge(held, m, decrypt)| == |held| + 1 &&
      Merge(held, m, decrypt)[..|held|] == held &&
      Merge(held, m, decrypt)[|held|] == Incoming(m, decrypt)
  {
    if !Holds(held, IdKey(m)) {
      var r := Merge(held, m, decrypt);
      forall i, j | 0 <= i < j < |r|
        ensures IdKey(r[i]) != IdKey(r[j])
      {
        if j == |held| {
          assert IdKey(r[j]) == IdKey(m);
          assert r[i] == held[i];
        }
      }
    }
  }

  /** Two messages without an `_id` both key as "undefined": the second one is dropped. */
  lemma MissingIdsCollide(held: seq<ClientMessage>, m: ClientMessage, decrypt: (string, string) -> Option<string>)
    requires exists i :: 0 <= i < |held| && held[i].id.None?
    requires m.id.None?
    ensures Merge(held, m, decrypt) == held
  {
    var i :| 0 <= i < |held| && held[i].id.None?;
    assert IdKey(held[i]) == IdKey(m);
  }

  /** The `message_status` handler: set the status of every message whose key is `messageId`. */
  function ApplyStatus(held: seq<ClientMessage>, messageId: Option<string>, status: Option<Status>): (r: seq<ClientMessage>)
    ensures |r| == |held|
    ensures forall i :: 0 <= i < |held| ==>
      r[i] == if IdKey(held[i]) == ToStr(messageId) then held[i].(status := status) else held[i]
  {
    if |held| == 0 then []
    else
      [if IdKey(held[0]) == ToStr(messageId) then held[0].(status := status) else held[0]]
        + ApplyStatus(held[1..], messageId, status)
  }

  /** There is no rank check: a late `delivered` overwrites `read`. */
  lemma DeliveredOverwritesRead(m: ClientMessage)
    requires m.id.Some? && m.status == Some(Read)
    ensures ApplyStatus([m], m.id, Some(Delivered)) == [m.(status := Some(Delivered))]
    ensures ApplyStatus([m], m.id, Some(Delivered))[0].status != Some(Read)
  {
  }

  predicate Unread(m: ClientMessage, me: string) {
    FromOther(m, me) && m.status != Some(Read)
  }

  /** The ids the page marks as read: messages from others not yet read, in list order. */
  function UnreadIds(held: seq<ClientMessage>, me: string): (r: seq<Option<string>>)
    ensures |r| <= |held|
    decreases |held|
  {
    if |held| == 0 then []
    else (if Unread(held[0], me) then [held[0].id] else []) + UnreadIds(held[1..], me)
  }

  /** Unread selection is a filter: it distributes over concatenation and keeps exactly the unread ids. */
  lemma {:induction false} UnreadIdsAppend(a: seq<ClientMessage>, b: seq<ClientMessage>, me: string)
    ensures UnreadIds(a + b, me) == UnreadIds(a, me) + UnreadIds(b, me)
    decreases |a|
  {
    if |a| > 0 {
      assert (a + b)[0] == a[0] && (a + b)[1..] == a[1..] + b;
      UnreadIdsAppend(a[1..], b, me);
    } else {
      assert a + b == b;
    }
  }

  lemma UnreadIdsSingle(m: ClientMessage, me: string)
    ensures UnreadIds([m], me) == if Unread(m, me) then [m.id] else []
  {
    assert UnreadIds([m][1..], me) == [];
  }

  /** My own messages never appear among the ids to mark read. */
  lemma {:induction false} UnreadExcludesMine(held: seq<ClientMessage>, me: string)
    requires forall i :: 0 <= i < |held| ==> IsMyMessage(held[i], me)
    ensures UnreadIds(held, me) == []
    decreases |held|
  {
    if |held| > 0 {
      MineIsNotOther(held[0], me);
      UnreadExcludesMine(held[1..], me);
    }
  }

  /** History loading: each record decrypted in place, same order and length. */
  function DecryptHistory(hist: seq<ClientMessage>, decrypt: (string, string) -> Option<string>): (r: seq<ClientMessage>)
    ensures |r| == |hist|
    ensures forall i :: 0 <= i < |hist| ==> r[i] == Decrypted(hist[i], decrypt)
  {
    if |hist| == 0 then [] else [Decrypted(hist[0], decrypt)] + DecryptHistory(hist[1..], decrypt)
  }

  /** A history record without ciphertext and iv is shown exactly as fetched; one with them gets plaintext or the sentinel. */
  lemma HistoryTexts(hist: seq<ClientMessage>, decrypt: (string, string) -> Option<string>, i: nat)
    requires i < |hist|
    ensures !(Truthy(hist[i].ciphertext) && Truthy(hist[i].iv)) ==> DecryptHistory(hist, decrypt)[i] == hist[i]
    ensures (Truthy(hist[i].ciphertext) && Truthy(hist[i].iv) &&
             decrypt(hist[i].ciphertext.value, hist[i].iv.value).None?) ==>
      DecryptHistory(hist, decrypt)[i].text == Some(Sentinel)
  {
  }

  // ---------------------------------------------------------------------------
  // Typing indicators

  /** `user_typing`: another user's email is added once. */
  function AddTyping(users: seq<Option<string>>, email: Option<string>, me: string): (r: seq<Option<string>>)
    ensures email == Some(me) || email in users ==> r == users
    ensures email != Some(me) && email !in users ==> r == users + [email]
  {
    if email != Some(me) && email !in users then users + [email] else users
  }

  /** `user_stopped_typing`: every occurrence of the email goes; the others keep their order. */
  function RemoveTyping(users: seq<Option<string>>, email: Option<string>): (r: seq<Option<string>>)
    ensures forall u :: u in r <==> u in users && u != email
    ensures |r| <= |users|
    ensures forall u :: u != email ==> multiset(r)[u] == multiset(users)[u]
  {
    if |users| == 0 then []
    else
      assert users == [users[0]] + users[1..];
      (if users[0] == email then [] else [users[0]]) + RemoveTyping(users[1..], email)
  }

  /** Removal keeps order: it works part by part. */
  lemma {:induction false} RemoveTypingAppend(a: seq<Option<string>>, b: seq<Option<string>>, email: Option<string>)
    ensures RemoveTyping(a + b, email) == RemoveTyping(a, email) + RemoveTyping(b, email)
    decreases |a|
  {
    if |a| == 0 {
      assert a + b == b;
    } else {
      var head := if a[0] == email then [] else [a[0]];
      calc {
        RemoveTyping(a + b, email);
      == { assert (a + b)[0] == a[0] && (a + b)[1..] == a[1..] + b; }
        head + RemoveTyping(a[1..] + b, email);
      == { RemoveTypingAppend(a[1..], b, email); }
        head + (RemoveTyping(a[1..], email) + RemoveTyping(b, email));
      ==
        (head + RemoveTyping(a[1..], email)) + RemoveTyping(b, email);
      }
    }
  }

  predicate NoRepeats<T(==)>(s: seq<T>) {
    forall i, j :: 0 <= i < j < |s| ==> s[i] != s[j]
  }

  /** The typing list never holds the current user and never holds an email twice. */
  lemma {:induction false} TypingInvariant(users: seq<Option<string>>, email: Option<string>, me: string)
    requires NoRepeats(users) && Some(me) !in users
    ensures NoRepeats(AddTyping(users, email, me)) && Some(me) !in AddTyping(users, email, me)
    ensures NoRepeats(RemoveTyping(users, email)) && Some(me) !in RemoveTyping(users, email)
    decreases |users|
  {
    RemoveKeepsNoRepeats(users, email);
  }

  lemma {:induction false} RemoveKeepsNoRepeats(users: seq<Option<string>>, email: Option<string>)
    requires NoRepeats(users)
    ensures NoRepeats(RemoveTyping(users, email))
    decreases |users|
  {
    if |users| > 0 {
      RemoveKeepsNoRepeats(users[1..], email);
      var rest := RemoveTyping(users[1..], email);
      if users[0] != email {
        assert users[0] !in users[1..];
        assert users[0] !in rest;
      }
    }
  }

  // ---------------------------------------------------------------------------
  // Date separators

  datatype Row = Separator(date: Stamp) | Message(msg: ClientMessage)

  /** `m.ts ? … : null`: a falsy timestamp (missing, zero or empty) starts no day. */
  predicate HasDay(m: ClientMessage) {
    StampTruthy(m.ts)
  }

  /** `new Date(m.ts).toDateString()`, with `dayOf` printing a valid time. */
  function DateString(m: ClientMessage, dayOf: int -> string): string {
    match TimeOf(m.ts)
    case None => InvalidDate
    case Some(t) => dayOf(t)
  }

  /** Rows for `ms`, given the day of the last separator so far; `dayOf` is `toDateString`. */
  function Group(ms: seq<ClientMessage>, dayOf: int -> string, last: Option<string>): seq<Row>
    decreases |ms|
  {
    if |ms| == 0 then []
    else if HasDay(ms[0]) && Some(DateString(ms[0], dayOf)) != last then
      [Separator(ms[0].ts), Message(ms[0])] + Group(ms[1..], dayOf, Some(DateString(ms[0], dayOf)))
    else [Message(ms[0])] + Group(ms[1..], dayOf, last)
  }

  /** The day of the last separator after `ms`. */
  function LastDay(ms: seq<ClientMessage>, dayOf: int -> string, last: Option<string>): Option<string>
    decreases |ms|
  {
    if |ms| == 0 then last
    else LastDay(ms[1..], dayOf, if HasDay(ms[0]) then Some(DateString(ms[0], dayOf)) else last)
  }

  function Messages(rows: seq<Row>): seq<ClientMessage> {
    if |rows| == 0 then []
    else (if rows[0].Message? then [rows[0].msg] else []) + Messages(rows[1..])
  }

  lemma {:induction false} MessagesAppend(a: seq<Row>, b: seq<Row>)
    ensures Messages(a + b) == Messages(a) + Messages(b)
    decreases |a|
  {
    if |a| > 0 {
      assert (a + b)[0] == a[0] && (a + b)[1..] == a[1..] + b;
      MessagesAppend(a[1..], b);
    } else {
      assert a + b == b;
    }
  }

  /** Every message appears exactly once and in order: dropping the separators gives the list back. */
  lemma {:induction false} GroupKeepsMessages(ms: seq<ClientMessage>, dayOf: int -> string, last: Option<string>)
    ensures Messages(Group(ms, dayOf, last)) == ms
    decreases |ms|
  {
    if |ms| > 0 {
      var next := if HasDay(ms[0]) && Some(DateString(ms[0], dayOf)) != last then Some(DateString(ms[0], dayOf)) else last;
      GroupKeepsMessages(ms[1..], dayOf, next);
      var head := if HasDay(ms[0]) && Some(DateString(ms[0], dayOf)) != last
        then [Separator(ms[0].ts), Message(ms[0])] else [Message(ms[0])];
      MessagesAppend(head, Group(ms[1..], dayOf, next));
      assert Messages(head) == [ms[0]] by {
        if |head| == 2 { assert head[1..] == [Message(ms[0])]; }
      }
      assert ms == [ms[0]] + ms[1..];
    }
  }

  /** The day grouping carries on with after one message. */
  function NextDay(m: ClientMessage, dayOf: int -> string, last: Option<string>): Option<string> {
    if HasDay(m) && Some(DateString(m, dayOf)) != last then Some(DateString(m, dayOf)) else last
  }

  /** The rows one message contributes. */
  function HeadRows(m: ClientMessage, dayOf: int -> string, last: Option<string>): seq<Row> {
    if HasDay(m) && Some(DateString(m, dayOf)) != last then [Separator(m.ts), Message(m)] else [Message(m)]
  }

  lemma GroupUnfold(ms: seq<ClientMessage>, dayOf: int -> string, last: Option<string>)
    requires |ms| > 0
    ensures Group(ms, dayOf, last) == HeadRows(ms[0], dayOf, last) + Group(ms[1..], dayOf, NextDay(ms[0], dayOf, last))
  {
  }

  /** Grouping splits at any point: the second part starts from the last day of the first. */
  lemma {:induction false} GroupAppend(a: seq<ClientMessage>, b: seq<ClientMessage>, dayOf: int -> string, last: Option<string>)
    ensures Group(a + b, dayOf, last) == Group(a, dayOf, last) + Group(b, dayOf, LastDay(a, dayOf, last))
    decreases |a|
  {
    if |a| > 0 {
      assert (a + b)[0] == a[0];
      assert (a + b)[1..] == a[1..] + b;
      var next := NextDay(a[0], dayOf, last);
      assert next == if HasDay(a[0]) then Some(DateString(a[0], dayOf)) else last;
      GroupAppend(a[1..], b, dayOf, next);
      GroupUnfold(a + b, dayOf, last);
      GroupUnfold(a, dayOf, last);
    } else {
      assert a + b == b;
    }
  }

  /** One message gets a separator exactly when it has a day and that day differs from the last one. */
  lemma GroupSingle(m: ClientMessage, dayOf: int -> string, last: Option<string>)
    ensures HasDay(m) && Some(DateString(m, dayOf)) != last ==> Group([m], dayOf, last) == [Separator(m.ts), Message(m)]
    ensures !(HasDay(m) && Some(DateString(m, dayOf)) != last) ==> Group([m], dayOf, last) == [Message(m)]
  {
    assert [m][1..] == [];
  }

  /** The render loop with its `lastDate` variable. */
  method WithSeparators(ms: seq<ClientMessage>, dayOf: int -> string) returns (rows: seq<Row>)
    ensures rows == Group(ms, dayOf, None)
  {
    rows := [];
    var lastDate: Option<string> := None;
    var i := 0;
    while i < |ms|
      invariant 0 <= i <= |ms|
      invariant rows + Group(ms[i..], dayOf, lastDate) == Group(ms, dayOf, None)
    {
      var m := ms[i];
      assert ms[i..][1..] == ms[i + 1..] && ms[i..][0] == m;
      GroupUnfold(ms[i..], dayOf, lastDate);
      if HasDay(m) && Some(DateString(m, dayOf)) != lastDate {
        rows := rows + [Separator(m.ts)];
        lastDate := Some(DateString(m, dayOf));
      }
      rows := rows + [Message(m)];
      i := i + 1;
    }
  }

  // ---------------------------------------------------------------------------
  // The page's socket-side state

  class ChatSession {
    const conversationId: string
    const currentUserEmail: string
    /**
     * socket.io's own `connected` flag on the client socket: the transport
     * sets and clears it, so no method of the page sets it.
     */
    var connected: bool
    var messages: seq<ClientMessage>
    var typingUsers: seq<Option<string>>
    /** Payloads emitted with `send_message`. */
    var outbox: seq<SendPayload>
    /** `messageId`s emitted with `message_delivered`. */
    var receipts: seq<Option<string>>
    const queue: OfflineQueue.Queue

    ghost predicate Valid()
      reads this, queue
    {
      queue.Valid()
    }

    constructor(conversationId: string, currentUserEmail: string, queue: OfflineQueue.Queue)
      requires queue.Valid()
      ensures Valid() && this.queue == queue
      ensures this.conversationId == conversationId && this.currentUserEmail == currentUserEmail
      ensures !connected && messages == [] && typingUsers == [] && outbox == [] && receipts == []
    {
      this.conversationId := conversationId;
      this.currentUserEmail := currentUserEmail;
      this.queue := queue;
      connected := false;
      messages := [];
      typingUsers := [];
      outbox := [];
      receipts := [];
    }

    /**
      `sendMessage`. Offline, the payload is queued once and nothing is
      emitted. Online, it is emitted and the result is the ack's `ok`; a
      negative ack queues the payload too.
    */
    method SendMessage(payload: SendPayload, ackOk: bool, now: int) returns (ok: bool)
      requires Valid()
      modifies this, queue
      ensures Valid()
      ensures !connected ==> outbox == old(outbox)
      ensures connected ==> outbox == old(outbox) + [payload]
      ensures ok <==> connected && ackOk
      ensures ok ==> queue.entries == old(queue.entries) && queue.nextId == old(queue.nextId)
      ensures !ok ==>
        queue.entries == old(queue.entries)[old(queue.nextId) := OfflineQueue.Unsent(old(queue.nextId), conversationId, payload, now, 0)] &&
        queue.nextId == old(queue.nextId) + 1
      ensures messages == old(messages) && receipts == old(receipts) && typingUsers == old(typingUsers)
      ensures connected == old(connected)
    {
      if !connected {
        var _ := queue.Add(conversationId, payload, now);
        return false;
      }
      outbox := outbox + [payload];
      if ackOk {
        ok := true;
      } else {
        var _ := queue.Add(conversationId, payload, now);
        ok := false;
      }
    }

    /**
      One iteration of the queue's flush with this page's `sendMessage` as the
      send function, when the send fails: the old entry is retried once more
      and a second entry with the same payload is queued.
    */
    method FlushEntryThroughSend(e: OfflineQueue.Unsent, now: int)
      requires Valid() && connected
      requires e.id in queue.entries && queue.entries[e.id] == e && e.retries < OfflineQueue.MaxRetries
      modifies this, queue
      ensures Valid()
      ensures var added := old(queue.nextId);
        added != e.id &&
        queue.entries == old(queue.entries)[added := OfflineQueue.Unsent(added, conversationId, e.payload, now, 0)]
                                           [e.id := e.(retries := e.retries + 1)]
      ensures outbox == old(outbox) + [e.payload]
    {
      var ok := SendMessage(e.payload, false, now);
      queue.IncrementRetry(e.id);
    }

    /** The `message` handler: merge, and emit a delivered receipt for a fresh message from someone else. */
    method OnMessage(m: ClientMessage, decrypt: (string, string) -> Option<string>)
      modifies this
      ensures messages == Merge(old(messages), m, decrypt)
      ensures !Holds(old(messages), IdKey(m)) && FromOther(m, currentUserEmail) ==> receipts == old(receipts) + [m.id]
      ensures Holds(old(messages), IdKey(m)) || !FromOther(m, currentUserEmail) ==> receipts == old(receipts)
      ensures outbox == old(outbox) && typingUsers == old(typingUsers) && connected == old(connected)
    {
      if Holds(messages, IdKey(m)) {
        return;
      }
      if FromOther(m, currentUserEmail) {
        receipts := receipts + [m.id];
      }
      messages := messages + [Incoming(m, decrypt)];
    }

    /** The `message_status` handler. */
    method OnMessageStatus(messageId: Option<string>, status: Option<Status>)
      modifies this
      ensures messages == ApplyStatus(old(messages), messageId, status)
      ensures outbox == old(outbox) && receipts == old(receipts) && typingUsers == old(typingUsers)
      ensures connected == old(connected)
    {
      messages := ApplyStatus(messages, messageId, status);
    }

    /** History replaces the list only while the page is still mounted. */
    method LoadHistory(hist: seq<ClientMessage>, decrypt: (string, string) -> Option<string>, mounted: bool)
      modifies this
      ensures mounted ==> messages == DecryptHistory(hist, decrypt)
      ensures !mounted ==> messages == old(messages)
      ensures outbox == old(outbox) && receipts == old(receipts) && typingUsers == old(typingUsers)
      ensures connected == old(connected)
    {
      if mounted {
        messages := DecryptHistory(hist, decrypt);
      }
    }

    method OnUserTyping(email: Option<string>)
      modifies this
      ensures typingUsers == AddTyping(old(typingUsers), email, currentUserEmail)
      ensures messages == old(messages) && outbox == old(outbox) && receipts == old(receipts)
      ensures connected == old(connected)
    {
      typingUsers := AddTyping(typingUsers, email, currentUserEmail);
    }

    method OnUserStoppedTyping(email: Option<string>)
      modifies this
      ensures typingUsers == RemoveTyping(old(typingUsers), email)
      ensures messages == old(messages) && outbox == old(outbox) && receipts == old(receipts)
      ensures connected == old(connected)
    {
      typingUsers := RemoveTyping(typingUsers, email);
    }
  }
}
