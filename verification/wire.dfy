/**
  The records that travel between the chat client, the socket server and the
  message store. The server's timestamps are milliseconds since the epoch; a
  client sees them in their JSON form, an ISO string (`Stamp.Iso`).
*/
module Wire {
  import opened Wrappers

  /** The `status` enum of a stored message; a new message is `Sent`. */
  datatype Status = Sent | Delivered | Read

  datatype Attachment = Attachment(url: string, filename: Option<string>, mime: Option<string>, size: Option<int>)

  /** What a client emits with `send_message`; every field may be absent. */
  datatype SendPayload = SendPayload(
    roomId: Option<string>,
    ciphertext: Option<string>,
    iv: Option<string>,
    tag: Option<string>,
    text: Option<string>,
    attachments: Option<seq<Attachment>>)

  /** The payload of a verified token: signed over `{id, email}`, plus the issue and expiry times. */
  datatype Claims = Claims(id: string, email: string, issuedAt: int, expiresAt: int)

  /** The `{id, email}` pair some middleware keeps of the claims. */
  datatype AuthUser = AuthUser(id: string, email: string)

  /** An HTTP error reply: the status code and the JSON body's `error`. */
  datatype HttpError = HttpError(status: nat, error: string)

  /** A persisted message document. */
  datatype StoredMessage = StoredMessage(
    id: string,
    conversationId: string,
    fromUserId: string,
    fromEmail: string,
    ciphertext: Option<string>,
    iv: Option<string>,
    tag: Option<string>,
    ts: int,
    status: Status,
    attachments: seq<Attachment>)

  /** The `message` event the server broadcasts to a room. */
  datatype MessageEvent = MessageEvent(
    fromUserId: string,
    fromEmail: string,
    roomId: string,
    ciphertext: Option<string>,
    iv: Option<string>,
    tag: Option<string>,
    text: Option<string>,
    ts: int,
    id: string)

  /**
    A message's `ts` as the client holds it: absent, a number, the ISO text
    of a server `Date` (never empty, and it parses back to its time), or some
    other text, with the time `new Date(text)` parses it to (`None` for an
    Invalid Date).
  */
  datatype Stamp = NoStamp | Millis(ms: int) | Iso(ms: int) | Text(text: string, parsed: Option<int>)

  /** JavaScript truthiness of a `ts`: zero and the empty string are falsy. */
  predicate StampTruthy(ts: Stamp) {
    match ts
    case NoStamp => false
    case Millis(ms) => ms != 0
    case Iso(_) => true
    case Text(t, _) => t != ""
  }

  /** What `toLocaleDateString` and `toDateString` print for an Invalid Date. */
  const InvalidDate := "Invalid Date"

  /** The time of `new Date(ts)`; `None` when it is an Invalid Date. */
  function TimeOf(ts: Stamp): Option<int>
  {
    match ts
    case NoStamp => None
    case Millis(ms) => Some(ms)
    case Iso(ms) => Some(ms)
    case Text(_, parsed) => parsed
  }

  /** A message as the chat page holds it: any field may be missing. */
  datatype ClientMessage = ClientMessage(
    id: Option<string>,
    fromEmail: Option<string>,
    from: Option<string>,
    ciphertext: Option<string>,
    iv: Option<string>,
    text: Option<string>,
    ts: Stamp,
    status: Option<Status>)

  /** A broadcast event as the client receives it. */
  function FromEvent(e: MessageEvent): ClientMessage
  {
    ClientMessage(Some(e.id), Some(e.fromEmail), None, e.ciphertext, e.iv, e.text, Iso(e.ts), None)
  }

  /** A history record as the client receives it: stored documents carry no `text`. */
  function FromStored(d: StoredMessage): ClientMessage
  {
    ClientMessage(Some(d.id), Some(d.fromEmail), None, d.ciphertext, d.iv, None, Iso(d.ts), Some(d.status))
  }
}
