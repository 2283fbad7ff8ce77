/**
  The socket server: token authentication on connect, room membership, and
  the `send_message` handler that validates, persists, broadcasts and acks.
*/
module Server {
  import opened Wrappers
  import opened Wire
  import opened JsText

  /** socket.io's `socket.id`, which also names the room every socket is put in on connection. */
  type SocketId = string

  /** The acknowledgement a handler passes to the client's callback. */
  datatype Ack = Ack(ok: bool, id: Option<string>, err: Option<string>)

  /** One `message` emission: the room, the sockets in it at that moment, and the event. */
  datatype Broadcast = Broadcast(room: string, recipients: set<SocketId>, event: MessageEvent)

  /** The sockets whose room set holds `room`: those that joined it, or the one whose id it is. */
  function Members(rooms: map<SocketId, set<string>>, room: string): set<SocketId> {
    set s | s in rooms && room in rooms[s]
  }

  /** A socket that has joined a room receives what is broadcast to it, its own messages included. */
  lemma JoinedSocketIsMember(rooms: map<SocketId, set<string>>, sid: SocketId, room: string)
    requires sid in rooms && room in rooms[sid]
    ensures sid in Members(rooms, room)
  {
  }

  /** The document `send_message` asks the store to create: identity from the socket, no `text`. */
  function Record(user: Claims, roomId: string, data: SendPayload, id: string, now: int): (d: StoredMessage)
    ensures d.fromUserId == user.id && d.fromEmail == user.email
    ensures d.conversationId == roomId && d.ts == now && d.id == id
    ensures d.status == Sent && d.attachments == []
  {
    StoredMessage(id, roomId, user.id, user.email, data.ciphertext, data.iv, data.tag, now, Sent, [])
  }

  /** The event broadcast after a successful create: the payload fields plus the new `_id`. */
  function Event(user: Claims, roomId: string, data: SendPayload, id: string, now: int): (e: MessageEvent)
    ensures var d := Record(user, roomId, data, id, now);
      e.id == d.id && e.fromUserId == d.fromUserId && e.fromEmail == d.fromEmail && e.roomId == d.conversationId &&
      e.ciphertext == d.ciphertext && e.iv == d.iv && e.tag == d.tag && e.ts == d.ts
  {
    MessageEvent(user.id, user.email, roomId, data.ciphertext, data.iv, data.tag, data.text, now, id)
  }

  /** Whatever the payload claims, the stored sender is the authenticated one and no plaintext is kept. */
  lemma RecordIgnoresPayloadIdentity(user: Claims, roomId: string, a: SendPayload, b: SendPayload, id: string, now: int)
    requires a.ciphertext == b.ciphertext && a.iv == b.iv && a.tag == b.tag
    ensures Record(user, roomId, a, id, now) == Record(user, roomId, b, id, now)
  {
  }

  class ChatServer {
    /** `socket.user` of every authenticated socket. */
    var users: map<SocketId, Claims>
    /** The rooms each connected socket has joined. */
    var rooms: map<SocketId, set<string>>
    /** The message collection. */
    var messages: seq<StoredMessage>
    /** Every `message` emission, in order. */
    var broadcasts: seq<Broadcast>

    /** Every connected socket is authenticated and stays in the room named by its own id. */
    ghost predicate Valid()
      reads this
    {
      users.Keys == rooms.Keys && forall s :: s in rooms ==> s in rooms[s]
    }

    constructor()
      ensures Valid() && users == map[] && rooms == map[] && messages == [] && broadcasts == []
    {
      users, rooms, messages, broadcasts := map[], map[], [], [];
    }

    /**
      The connection middleware. A missing or empty token, or one `verify`
      rejects, refuses the connection; otherwise the socket's user is the
      verified payload, and socket.io puts the socket in the room named by its id.
    */
    method Connect(sid: SocketId, token: Option<string>, verify: string -> Option<Claims>) returns (r: Result<Claims, string>)
      requires Valid() && sid !in users
      modifies this
      ensures Valid()
      ensures !Truthy(token) ==> r == Failure("Auth error: token required")
      ensures Truthy(token) && verify(token.value).None? ==> r == Failure("Auth error: invalid token")
      ensures r.Failure? ==> users == old(users) && rooms == old(rooms)
      ensures Truthy(token) && verify(token.value).Some? ==>
        r == Success(verify(token.value).value) &&
        users == old(users)[sid := verify(token.value).value] && rooms == old(rooms)[sid := {sid}]
      ensures messages == old(messages) && broadcasts == old(broadcasts)
    {
      if !Truthy(token) {
        return Failure("Auth error: token required");
      }
      var payload := verify(token.value);
      if payload.None? {
        return Failure("Auth error: invalid token");
      }
      users := users[sid := payload.value];
      rooms := rooms[sid := {sid}];
      r := Success(payload.value);
    }

    /** `join_conversation`: the socket joins the room and the ack is `{ok: true}`. */
    method Join(sid: SocketId, conversationId: string) returns (ack: Ack)
      requires Valid() && sid in users
      modifies this
      ensures Valid()
      ensures rooms == old(rooms)[sid := old(rooms)[sid] + {conversationId}]
      ensures ack == Ack(true, None, None)
      ensures users == old(users) && messages == old(messages) && broadcasts == old(broadcasts)
    {
      rooms := rooms[sid := rooms[sid] + {conversationId}];
      ack := Ack(true, None, None);
    }

    /**
      `send_message`. Only `roomId` is validated. `created` is the store's
      outcome: the new document's id, or None when the create throws.
    */
    method SendMessage(sid: SocketId, data: Option<SendPayload>, created: Option<string>, now: int) returns (ack: Ack)
      requires Valid() && sid in users
      modifies this
      ensures Valid() && users == old(users) && rooms == old(rooms)
      ensures var roomId := if data.Some? then data.value.roomId else None;
        !Truthy(roomId) ==>
          ack == Ack(false, None, Some("roomId required")) &&
          messages == old(messages) && broadcasts == old(broadcasts)
      ensures var roomId := if data.Some? then data.value.roomId else None;
        Truthy(roomId) && created.None? ==>
          ack == Ack(false, None, Some("save_failed")) &&
          messages == old(messages) && broadcasts == old(broadcasts)
      ensures var roomId := if data.Some? then data.value.roomId else None;
        Truthy(roomId) && created.Some? ==>
          messages == old(messages) + [Record(users[sid], roomId.value, data.value, created.value, now)] &&
          broadcasts == old(broadcasts) +
            [Broadcast(roomId.value, Members(rooms, roomId.value),
                       Event(users[sid], roomId.value, data.value, created.value, now))] &&
          ack == Ack(true, Some(created.value), None)
      ensures var roomId := if data.Some? then data.value.roomId else None;
        Truthy(roomId) && created.Some? && roomId.value in rooms ==>
          roomId.value in broadcasts[|broadcasts| - 1].recipients
    {
      var roomId := if data.Some? then data.value.roomId else None;
      if !Truthy(roomId) {
        return Ack(false, None, Some("roomId required"));
      }
      var payload := data.value;
      var user := users[sid];
      if created.None? {
        return Ack(false, None, Some("save_failed"));
      }
      var doc := Record(user, roomId.value, payload, created.value, now);
      messages := messages + [doc];
      broadcasts := broadcasts + [Broadcast(roomId.value, Members(rooms, roomId.value),
                                            Event(user, roomId.value, payload, doc.id, now))];
      ack := Ack(true, Some(doc.id), None);
    }

    /** A disconnect forgets the socket and its rooms. */
    method Disconnect(sid: SocketId)
      requires Valid()
      modifies this
      ensures Valid()
      ensures users == old(users) - {sid} && rooms == old(rooms) - {sid}
      ensures messages == old(messages) && broadcasts == old(broadcasts)
    {
      users := users - {sid};
      rooms := rooms - {sid};
    }
  }
}
