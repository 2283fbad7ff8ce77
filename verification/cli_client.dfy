/**
  The command-line client: the start-up check of the shared key, the line
  dispatcher with its `lastRoom` state, and how an incoming `message` event is
  displayed. AES-GCM, Node's Base64 decoder and the random generator are
  parameters.
*/
module CliClient {
  import opened Wrappers
  import opened Wire
  import opened JsText
  import Server

  /** The text shown for a message that fails to decrypt. */
  const Sentinel := "<unable to decrypt>"

  /**
    The key the client runs with. A non-blank `CHAT_KEY` is trimmed and decoded
    by `bufferFrom` (Node's `Buffer.from(…, 'base64')`) and must give 32
    bytes, else the process exits with the error; without one the key is the
    `random` bytes, printed for the other client.
  */
  function StartupKey(keyEnv: Option<string>, bufferFrom: string -> seq<byte>, random: seq<byte>): (r: Result<seq<byte>, string>)
    ensures Truthy(keyEnv) && Trim(keyEnv.value) != "" ==>
      (r.Success? <==> |bufferFrom(Trim(keyEnv.value))| == 32) &&
      (r.Success? ==> r.value == bufferFrom(Trim(keyEnv.value)))
    ensures !(Truthy(keyEnv) && Trim(keyEnv.value) != "") ==> r == Success(random)
  {
    if Truthy(keyEnv) && Trim(keyEnv.value) != "" then
      var raw := bufferFrom(Trim(keyEnv.value));
      if |raw| != 32 then Failure("CHAT_KEY must be 32 bytes when base64-decoded (AES-256)")
      else Success(raw)
    else Success(random)
  }

  /** The key the client runs with is always 32 bytes long when it generates its own 32 random bytes. */
  lemma StartupKeyLength(keyEnv: Option<string>, bufferFrom: string -> seq<byte>, random: seq<byte>)
    requires |random| == 32
    ensures StartupKey(keyEnv, bufferFrom, random).Success? ==> |StartupKey(keyEnv, bufferFrom, random).value| == 32
  {
  }

  /** What one `send_message`, `join_conversation`, `leave_conversation` or `list_my_rooms` emission carries. */
  datatype Emit = Join(room: string) | Leave(room: string) | ListRooms | Send(room: string, plaintext: string)

  /** The outcome of one input line. */
  datatype Outcome = Ignored | JoinUsage | ShowId | NoRoom | Emitted(emit: Emit)

  /** A line starting with a command word and a space splits into the word and the split of the rest. */
  lemma CommandWords(input: string, cmd: string)
    requires StartsWith(input, cmd + " ") && ' ' !in cmd
    ensures Split(input, ' ') == [cmd] + Split(input[|cmd| + 1..], ' ')
    ensures |Split(input, ' ')| >= 2
  {
    assert input == cmd + [' '] + input[|cmd| + 1..];
    SplitByAppend(cmd, ' ', input[|cmd| + 1..], IsChar(' '));
  }

  /** The handler's decision for a non-empty trimmed line. */
  function Command(input: string, lastRoom: Option<string>): (out: Outcome)
    requires input != ""
    ensures out.Emitted? && out.emit.Send? ==> Truthy(lastRoom) && out.emit == Send(lastRoom.value, input)
    ensures out.Emitted? && out.emit.Join? ==> StartsWith(input, "/join ") && out.emit.room != ""
    ensures out == NoRoom ==> !Truthy(lastRoom)
  {
    if StartsWith(input, "/join ") then
      CommandWords(input, "/join");
      var roomId := Split(input, ' ')[1];
      if roomId == "" then JoinUsage else Emitted(Join(roomId))
    else if StartsWith(input, "/leave ") then
      CommandWords(input, "/leave");
      Emitted(Leave(Split(input, ' ')[1]))
    else if input == "/who" then ShowId
    else if input == "/rooms" then Emitted(ListRooms)
    else if !Truthy(lastRoom) then NoRoom
    else Emitted(Send(lastRoom.value, input))
  }

  /**
    The line handler's decision for a line, given `lastRoom`. `/join ` and
    `/leave ` take the second space-separated word; any other line, including
    an unknown or malformed command, is chat text for `lastRoom`.
  */
  function Dispatch(line: string, lastRoom: Option<string>): (out: Outcome)
    ensures Trim(line) == "" ==> out == Ignored
    ensures out.Emitted? && out.emit.Send? ==>
      Truthy(lastRoom) && out.emit == Send(lastRoom.value, Trim(line))
    ensures out.Emitted? && out.emit.Join? ==> StartsWith(Trim(line), "/join ") && out.emit.room != ""
    ensures out == NoRoom ==> !Truthy(lastRoom)
  {
    var input := Trim(line);
    if input == "" then Ignored else Command(input, lastRoom)
  }

  /** `/join X` for a one-word room X emits a join for exactly X. */
  lemma JoinTakesSecondWord(room: string, lastRoom: Option<string>)
    requires room != "" && ' ' !in room && NoEdgeWhitespace(room)
    ensures Dispatch("/join " + room, lastRoom) == Emitted(Join(room))
  {
    var line := "/join " + room;
    assert line == "/join" + [' '] + room;
    assert NoEdgeWhitespace(line);
    TrimOfTrimmed(line);
    assert line[..6] == "/join ";
    SplitByAppend("/join", ' ', room, IsChar(' '));
    SplitByNoSeparator(room, IsChar(' '));
  }

  /** A bare `/join` is not a command: with a room joined it is sent as chat text. */
  lemma BareJoinIsSent(room: string)
    requires room != ""
    ensures Dispatch("/join", Some(room)) == Emitted(Send(room, "/join"))
  {
    assert NoEdgeWhitespace("/join");
    TrimOfTrimmed("/join");
  }

  /** Every chat line goes to `lastRoom`; with no room joined nothing is sent. */
  lemma ChatTextNeedsRoom(line: string, lastRoom: Option<string>)
    requires Trim(line) != "" && !StartsWith(Trim(line), "/")
    ensures Truthy(lastRoom) ==> Dispatch(line, lastRoom) == Emitted(Send(lastRoom.value, Trim(line)))
    ensures !Truthy(lastRoom) ==> Dispatch(line, lastRoom) == NoRoom
  {
    CommandOfChatText(Trim(line), lastRoom);
  }

  /** The handler's decision for a trimmed line that does not start with '/'. */
  lemma CommandOfChatText(input: string, lastRoom: Option<string>)
    requires input != "" && !StartsWith(input, "/")
    ensures Command(input, lastRoom) == if Truthy(lastRoom) then Emitted(Send(lastRoom.value, input)) else NoRoom
  {
    assert input[0] != '/' by {
      assert input[..1] == [input[0]];
    }
    assert !StartsWith(input, "/join ") && !StartsWith(input, "/leave ") by {
      assert |input| >= 7 ==> input[..7][0] == input[0];
      assert |input| >= 6 ==> input[..6][0] == input[0];
    }
    assert input != "/who" && input != "/rooms" by {
      assert "/who"[0] == '/' && "/rooms"[0] == '/';
    }
  }

  /** The client's state: `lastRoom` and the emissions so far. */
  class Client {
    var lastRoom: Option<string>
    var emitted: seq<Emit>

    constructor()
      ensures lastRoom == None && emitted == []
    {
      lastRoom, emitted := None, [];
    }

    /** One input line: its emission, if any, is recorded; `lastRoom` only changes in an acknowledgement. */
    method OnLine(line: string) returns (out: Outcome)
      modifies this
      ensures out == Dispatch(line, old(lastRoom))
      ensures emitted == old(emitted) + (if out.Emitted? then [out.emit] else [])
      ensures lastRoom == old(lastRoom)
    {
      var room := lastRoom;
      out := Dispatch(line, room);
      if out.Emitted? {
        emitted := emitted + [out.emit];
      }
    }

    /** The join acknowledgement for `roomId`: an ok ack makes it the last room. */
    method OnJoinAck(roomId: string, ack: Option<Server.Ack>)
      modifies this
      ensures lastRoom == if ack.Some? && ack.value.ok then Some(roomId) else old(lastRoom)
      ensures emitted == old(emitted)
    {
      if ack.Some? && ack.value.ok {
        lastRoom := Some(roomId);
      }
    }

    /** The leave acknowledgement for `roomId`: an ok ack clears the last room only when it is `roomId`. */
    method OnLeaveAck(roomId: string, ack: Option<Server.Ack>)
      modifies this
      ensures lastRoom == if ack.Some? && ack.value.ok && old(lastRoom) == Some(roomId) then None else old(lastRoom)
      ensures emitted == old(emitted)
    {
      if ack.Some? && ack.value.ok && lastRoom == Some(roomId) {
        lastRoom := None;
      }
    }
  }

  /** An incoming `message` event as this client reads it: it looks for `from`, not `fromEmail`. */
  datatype Incoming = Incoming(roomId: Option<string>, from: Option<string>, ts: Option<int>,
                               ciphertext: Option<string>, iv: Option<string>, tag: Option<string>, text: Option<string>)

  /** The socket server's broadcast as this client sees it. */
  function OfEvent(e: MessageEvent): Incoming {
    Incoming(Some(e.roomId), None, Some(e.ts), e.ciphertext, e.iv, e.tag, e.text)
  }

  /** A displayed line: room, sender and time as printed (absent ones print "undefined"), and the body. */
  datatype Shown = Line(roomId: Option<string>, from: Option<string>, ts: Option<int>, body: string) | UnknownFormat

  /**
    With ciphertext, iv and tag the body is the plaintext or the sentinel;
    otherwise a plaintext `text` is shown as it is; otherwise the format is
    unknown. `decrypt(ciphertext, iv, tag)` is AES-256-GCM under the key.
  */
  function Display(m: Incoming, decrypt: (string, string, string) -> Option<string>): (s: Shown)
    ensures Truthy(m.ciphertext) && Truthy(m.iv) && Truthy(m.tag) ==>
      s == Line(m.roomId, m.from, m.ts,
                if decrypt(m.ciphertext.value, m.iv.value, m.tag.value).Some?
                then decrypt(m.ciphertext.value, m.iv.value, m.tag.value).value else Sentinel)
    ensures !(Truthy(m.ciphertext) && Truthy(m.iv) && Truthy(m.tag)) && Truthy(m.text) ==>
      s == Line(m.roomId, m.from, m.ts, m.text.value)
    ensures s == UnknownFormat <==> !(Truthy(m.ciphertext) && Truthy(m.iv) && Truthy(m.tag)) && !Truthy(m.text)
  {
    if Truthy(m.ciphertext) && Truthy(m.iv) && Truthy(m.tag) then
      match decrypt(m.ciphertext.value, m.iv.value, m.tag.value)
      case None => Line(m.roomId, m.from, m.ts, Sentinel)
      case Some(plain) => Line(m.roomId, m.from, m.ts, plain)
    else if Truthy(m.text) then Line(m.roomId, m.from, m.ts, m.text.value)
    else UnknownFormat
  }

  /**
    What the socket server relays from a payload without a tag and without
    `text` (the shape the browser page sends) is an unknown format here; and
    any line shown for a relayed event names no sender, since the server sends
    `fromEmail`, not `from`.
  */
  lemma RelayedEvents(user: Claims, roomId: string, data: SendPayload, id: string, now: int,
                      decrypt: (string, string, string) -> Option<string>)
    ensures var s := Display(OfEvent(Server.Event(user, roomId, data, id, now)), decrypt);
      (s.Line? ==> s.from == None) &&
      (data.tag.None? && data.text.None? ==> s == UnknownFormat)
  {
  }
}
