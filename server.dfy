/** The chat server: the room directory and the message collection, the
    REST routes over them, the socket event handlers with their room
    fan-out, and the 24-hour retention sweep. Each handler is one atomic
    step on the server's state. */
module Server {
  import opened JsText
  import opened Protocol
  import opened ScriptTags
  import opened MessageQuery

  /** `substring(0, 50)` on the sender name. */
  const SenderLimit: nat := 50
  /** `substring(0, 1000)` on the message body. */
  const BodyLimit: nat := 1000
  /** `24 * 60 * 60 * 1000`: messages older than this are swept. */
  const RetentionMs: int := 86_400_000

  const RoomCodeRequired: string := "Room code is required"
  const CreatorRequired: string := "Creator name is required"
  const RoomExists: string := "Room code already exists"
  const RoomNotFound: string := "Room not found"
  const NotCreator: string := "Only room creator can delete the room"
  const IdsRequired: string := "Room code and message IDs are required"
  const SendFieldsRequired: string := "Room code, sender and message are required"
  const InvalidInput: string := "Invalid input"
  const SendFailed: string := "Failed to send message"
  const JoinFailed: string := "Failed to join room"

  /** A room record: its creator's display name and its creation time. */
  datatype Room = Room(creator: string, createdAt: int)

  /** The answers of the REST routes. */
  datatype Response =
    | RoomCreated(roomCode: string)                 // 200 { success, roomCode }
    | RoomFound(roomCode: string, creator: string)  // 200 { success, roomCode, creator }
    | RoomDeleted                                   // 200 { success }
    | History(list: seq<Message>)                   // 200 [ messages ]
    | MessagesRemoved(deletedCount: nat)            // 200 { success, "<n> message(s) deleted" }
    | Failure(status: nat, reason: string)

  /** `!field || !field.trim()`. */
  predicate BlankField(field: Option<string>)
  {
    field.None? || Blank(field.value)
  }

  /** `code.trim().toUpperCase()`: the canonical room code. */
  function Canonical(code: string): string
  {
    ToUpperCase(Trim(code))
  }

  /** Room codes differing only in letter case name the same room. */
  lemma CanonicalIgnoresCase(a: string, b: string)
    requires ToUpperCase(a) == ToUpperCase(b)
    ensures Canonical(a) == Canonical(b)
  {
    TrimCommutesWithUpperCase(a);
    TrimCommutesWithUpperCase(b);
  }

  /** A canonical code is its own canonical form. */
  lemma CanonicalIdempotent(code: string)
    ensures Canonical(Canonical(code)) == Canonical(code)
  {
    TrimCommutesWithUpperCase(Trim(code));
    TrimIdempotent(code);
    ToUpperCaseIdempotent(Trim(code));
  }

  /** A room code with a non-space character has a non-empty canonical form. */
  lemma CanonicalOfNonBlank(code: string)
    ensures Canonical(code) == [] <==> Blank(code)
  {
  }

  // ---------------------------------------------------------------------
  // Validation of sendMessage

  /** A validated message, before it gets an id and a timestamp. */
  datatype Draft = Draft(roomCode: string, sender: string, body: string)

  datatype Checked<T> = Accepted(value: T) | Rejected(reason: string)

  /** `sender.trim().substring(0, 50)`. */
  function CleanSender(sender: string): (r: string)
    ensures |r| == if |Trim(sender)| <= SenderLimit then |Trim(sender)| else SenderLimit
    ensures r <= Trim(sender)
    ensures r == [] <==> Blank(sender)
  {
    Prefix(Trim(sender), SenderLimit)
  }

  /** The trimmed body cut to 1000 characters, with its script elements
      stripped. */
  function CleanBody(message: string): (r: string)
    ensures |r| <= BodyLimit
  {
    Strip(Prefix(Trim(message), BodyLimit))
  }

  /** The checks of sendMessage, in the source's order: the three fields are
      present, the cleaned sender and body are not empty, and the canonical
      room code is not empty (an empty one fails the schema's `required`
      check on save, which the handler reports as a failed send). */
  function PrepareMessage(data: Payload): (r: Checked<Draft>)
    ensures Falsy(data.roomCode) || Falsy(data.sender) || Falsy(data.message) ==>
              r == Rejected(SendFieldsRequired)
    ensures r.Accepted? <==>
              && !BlankField(data.roomCode) && !BlankField(data.sender) && !Falsy(data.message)
              && CleanBody(data.message.value) != []
    ensures !Falsy(data.roomCode) && !Falsy(data.sender) && !Falsy(data.message) ==>
              && (Blank(data.sender.value) || CleanBody(data.message.value) == [] ==>
                    r == Rejected(InvalidInput))
              && (!Blank(data.sender.value) && CleanBody(data.message.value) != [] && Blank(data.roomCode.value) ==>
                    r == Rejected(SendFailed))
    ensures r.Accepted? ==>
              && r.value.roomCode == Canonical(data.roomCode.value) && r.value.roomCode != []
              && r.value.sender == CleanSender(data.sender.value)
              && r.value.body == CleanBody(data.message.value)
  {
    if Falsy(data.roomCode) || Falsy(data.sender) || Falsy(data.message) then
      Rejected(SendFieldsRequired)
    else
      var code := Canonical(data.roomCode.value);
      var sender := CleanSender(data.sender.value);
      var body := CleanBody(data.message.value);
      if sender == [] || body == [] then Rejected(InvalidInput)
      else if code == [] then Rejected(SendFailed)
      else Accepted(Draft(code, sender, body))
  }

  /** What a stored message always satisfies. */
  predicate WellFormed(m: Message)
  {
    && m.roomCode != []
    && 1 <= |m.sender| <= SenderLimit
    && 1 <= |m.body| <= BodyLimit
  }

  /** An accepted draft makes a well-formed message whatever its id and time. */
  lemma AcceptedIsWellFormed(data: Payload, id: MessageId, now: int)
    requires PrepareMessage(data).Accepted?
    ensures var d := PrepareMessage(data).value;
            WellFormed(Message(id, d.roomCode, d.sender, d.body, now))
  {
  }

  // ---------------------------------------------------------------------
  // Room membership and fan-out

  /** The connections that joined room `code`. */
  function RoomMembers(membership: map<ConnId, set<string>>, code: string): (r: set<ConnId>)
    ensures forall c :: c in r <==> c in membership && code in membership[c]
  {
    set c | c in membership && code in membership[c]
  }

  /** The rooms connection `conn` joined. */
  function RoomsOf(membership: map<ConnId, set<string>>, conn: ConnId): set<string>
  {
    if conn in membership then membership[conn] else {}
  }

  /** `socket.join(code)`: adds the room to the connection's rooms, leaving
      every other membership as it was. */
  function Joined(membership: map<ConnId, set<string>>, conn: ConnId, code: string): (r: map<ConnId, set<string>>)
    ensures RoomsOf(r, conn) == RoomsOf(membership, conn) + {code}
    ensures forall c :: c != conn ==> RoomsOf(r, c) == RoomsOf(membership, c)
  {
    membership[conn := RoomsOf(membership, conn) + {code}]
  }

  /** Joining a room only ever adds the joining connection, and only to that
      room: no earlier room is left. */
  lemma JoinOnlyAdds(membership: map<ConnId, set<string>>, conn: ConnId, code: string, room: string)
    ensures RoomMembers(Joined(membership, conn, code), room) ==
            RoomMembers(membership, room) + (if room == code then {conn} else {})
  {
  }

  /** A connection whose only room is `mine` is not a member of any other. */
  lemma OtherRoomsUnreached(membership: map<ConnId, set<string>>, conn: ConnId, mine: string, other: string)
    requires RoomsOf(membership, conn) == {mine}
    requires other != mine
    ensures conn !in RoomMembers(membership, other)
  {
  }

  /** The fan-out of `io.to(code)`: every member, the emitting connection
      included when it is one. */
  function ToRoom(membership: map<ConnId, set<string>>, code: string, event: ServerEvent): (e: Emission)
    ensures e.to == RoomMembers(membership, code) && e.event == event
  {
    Emission(RoomMembers(membership, code), event)
  }

  /** The fan-out of `socket.to(code)`: every member except the emitting
      connection. */
  function ToOthersInRoom(membership: map<ConnId, set<string>>, conn: ConnId, code: string, event: ServerEvent): (e: Emission)
    ensures conn !in e.to
    ensures forall c :: c in e.to <==> c != conn && c in membership && code in membership[c]
    ensures e.event == event
  {
    Emission(RoomMembers(membership, code) - {conn}, event)
  }

  /** `socket.emit(...)`: the emitting connection alone. */
  function ToCaller(conn: ConnId, event: ServerEvent): (e: Emission)
    ensures e.to == {conn} && e.event == event
  {
    Emission({conn}, event)
  }

  /** A room-wide emit reaches a connection exactly when it joined the room;
      a connection in other rooms only receives nothing. */
  lemma ToRoomReachesMembersOnly(membership: map<ConnId, set<string>>, code: string, event: ServerEvent, c: ConnId)
    ensures c in ToRoom(membership, code, event).to <==> code in RoomsOf(membership, c)
  {
  }

  /** A connection that joined with a code written without surrounding
      spaces receives its own `newMessage` when it sends with that code:
      joining upper-cases and sending trims and upper-cases, and both give
      the same room. */
  lemma {:induction false} SenderReceivesOwnMessage(membership: map<ConnId, set<string>>, conn: ConnId, code: string, event: ServerEvent)
    requires code == [] || (!IsWhiteSpace(code[0]) && !IsWhiteSpace(code[|code| - 1]))
    ensures conn in ToRoom(Joined(membership, conn, ToUpperCase(code)), Canonical(code), event).to
  {
    TrimOfTrimmed(code);
  }

  /** Joining uses the untrimmed code while sending trims it: a connection
      that joined with " r1" is in room " R1", the message it sends with the
      same code is stored under and sent to "R1", and it does not get its own
      message back. */
  lemma UntrimmedJoinMissesOwnMessage(conn: ConnId, event: ServerEvent)
    ensures Canonical(" r1") == "R1"
    ensures conn !in ToRoom(Joined(map[], conn, ToUpperCase(" r1")), Canonical(" r1"), event).to
  {
    SpacedCodeRooms();
  }

  /** The room " r1" joins and the room a message with code " r1" goes to. */
  lemma SpacedCodeRooms()
    ensures ToUpperCase(" r1") == " R1" && Canonical(" r1") == "R1"
  {
    SpacedCodeTrimmed();
    assert ToUpperCase("r1") == "R1";
  }

  lemma SpacedCodeTrimmed()
    ensures Trim(" r1") == "r1"
  {
    assert FirstNonSpace(" r1") == 1;
    assert " r1"[1..] == "r1";
    assert EndNonSpace("r1") == 2;
  }

  /** Removing one room's messages (the cascade of delete-room) leaves every
      other room's history as it was. */
  lemma CascadeSparesOtherRooms(s: seq<Message>, code: string, other: string)
    requires code != other
    ensures Find(DeleteMany(s, InRoom(code)), InRoom(other)) == Find(s, InRoom(other))
    ensures ListRecent(DeleteMany(s, InRoom(code)), other) == ListRecent(s, other)
  {
    DeleteManyKeepsDisjoint(s, InRoom(code), InRoom(other));
  }

  /** Deleting listed ids in one room leaves every other room's history as
      it was, even when the list names messages of those rooms. */
  lemma ScopedDeleteSparesOtherRooms(s: seq<Message>, ids: seq<MessageId>, code: string, other: string)
    requires code != other
    ensures Find(DeleteMany(s, IdsInRoom(ids, code)), InRoom(other)) == Find(s, InRoom(other))
    ensures ListRecent(DeleteMany(s, IdsInRoom(ids, code)), other) == ListRecent(s, other)
  {
    DeleteManyKeepsDisjoint(s, IdsInRoom(ids, code), InRoom(other));
  }

  // ---------------------------------------------------------------------
  // The server state and its handlers

  class ChatServer {
    /** The rooms collection, keyed by canonical room code. */
    var rooms: map<string, Room>
    /** The messages collection, in insertion order. */
    var messages: seq<Message>
    /** The id the next stored message receives. */
    var nextId: MessageId
    /** socket.io's rooms: the room codes each connection joined. */
    var membership: map<ConnId, set<string>>

    ghost predicate Valid()
      reads this
    {
      && IdsIncreasing(messages)
      && (forall m :: m in messages ==> m.id < nextId)
      && (forall m :: m in messages ==> WellFormed(m))
    }

    constructor ()
      ensures Valid()
      ensures rooms == map[] && messages == [] && membership == map[]
    {
      rooms := map[];
      messages := [];
      nextId := 0;
      membership := map[];
    }

    /** POST /api/create-room. */
    method CreateRoom(roomCode: Option<string>, creator: Option<string>, now: int) returns (res: Response)
      requires Valid()
      modifies this`rooms
      ensures Valid()
      ensures BlankField(roomCode) ==>
                res == Failure(400, RoomCodeRequired) && rooms == old(rooms)
      ensures !BlankField(roomCode) && BlankField(creator) ==>
                res == Failure(400, CreatorRequired) && rooms == old(rooms)
      ensures !BlankField(roomCode) && !BlankField(creator) && Canonical(roomCode.value) in old(rooms) ==>
                res == Failure(409, RoomExists) && rooms == old(rooms)
      ensures !BlankField(roomCode) && !BlankField(creator) && Canonical(roomCode.value) !in old(rooms) ==>
                && res == RoomCreated(Canonical(roomCode.value))
                && rooms == old(rooms)[Canonical(roomCode.value) := Room(Trim(creator.value), now)]
    {
      if BlankField(roomCode) {
        return Failure(400, RoomCodeRequired);
      }
      if BlankField(creator) {
        return Failure(400, CreatorRequired);
      }
      var code := Canonical(roomCode.value);
      if code in rooms {
        return Failure(409, RoomExists);
      }
      rooms := rooms[code := Room(Trim(creator.value), now)];
      res := RoomCreated(code);
    }

    /** POST /api/join-room: checks that a room exists; changes nothing. */
    method VerifyRoom(roomCode: Option<string>) returns (res: Response)
      ensures BlankField(roomCode) ==> res == Failure(400, RoomCodeRequired)
      ensures !BlankField(roomCode) && Canonical(roomCode.value) !in rooms ==>
                res == Failure(404, RoomNotFound)
      ensures !BlankField(roomCode) && Canonical(roomCode.value) in rooms ==>
                res == RoomFound(Canonical(roomCode.value), rooms[Canonical(roomCode.value)].creator)
    {
      if BlankField(roomCode) {
        return Failure(400, RoomCodeRequired);
      }
      var code := Canonical(roomCode.value);
      if code !in rooms {
        return Failure(404, RoomNotFound);
      }
      res := RoomFound(code, rooms[code].creator);
    }

    /** DELETE /api/delete-room: only the stored creator may delete; the
        room's messages go first, then the room record. */
    method DeleteRoom(roomCode: Option<string>, creator: Option<string>) returns (res: Response)
      requires Valid()
      modifies this`rooms, this`messages
      ensures Valid()
      ensures BlankField(roomCode) ==>
                res == Failure(400, RoomCodeRequired) && rooms == old(rooms) && messages == old(messages)
      ensures !BlankField(roomCode) && BlankField(creator) ==>
                res == Failure(400, CreatorRequired) && rooms == old(rooms) && messages == old(messages)
      ensures !BlankField(roomCode) && !BlankField(creator) && Canonical(roomCode.value) !in old(rooms) ==>
                res == Failure(404, RoomNotFound) && rooms == old(rooms) && messages == old(messages)
      ensures !BlankField(roomCode) && !BlankField(creator) && Canonical(roomCode.value) in old(rooms) &&
              old(rooms)[Canonical(roomCode.value)].creator != Trim(creator.value) ==>
                res == Failure(403, NotCreator) && rooms == old(rooms) && messages == old(messages)
      ensures !BlankField(roomCode) && !BlankField(creator) && Canonical(roomCode.value) in old(rooms) &&
              old(rooms)[Canonical(roomCode.value)].creator == Trim(creator.value) ==>
                && res == RoomDeleted
                && messages == DeleteMany(old(messages), InRoom(Canonical(roomCode.value)))
                && rooms == old(rooms) - {Canonical(roomCode.value)}
    {
      if BlankField(roomCode) {
        return Failure(400, RoomCodeRequired);
      }
      if BlankField(creator) {
        return Failure(400, CreatorRequired);
      }
      var code := Canonical(roomCode.value);
      if code !in rooms {
        return Failure(404, RoomNotFound);
      }
      if rooms[code].creator != Trim(creator.value) {
        return Failure(403, NotCreator);
      }
      DeleteManyKeepsIdsIncreasing(messages, InRoom(code));
      messages := DeleteMany(messages, InRoom(code));
      rooms := rooms - {code};
      res := RoomDeleted;
    }

    /** GET /api/messages/:roomCode, upper-cased but not trimmed. */
    method GetMessages(roomCode: string) returns (res: Response)
      ensures res == History(ListRecent(messages, ToUpperCase(roomCode)))
    {
      res := History(ListRecent(messages, ToUpperCase(roomCode)));
    }

    /** DELETE /api/delete-messages: removes the listed messages of that room
        only. `messageIds` is None when the field is missing or not an array. */
    method DeleteMessages(roomCode: Option<string>, messageIds: Option<seq<MessageId>>) returns (res: Response)
      requires Valid()
      modifies this`messages
      ensures Valid()
      ensures Falsy(roomCode) || messageIds.None? || messageIds.value == [] ==>
                res == Failure(400, IdsRequired) && messages == old(messages)
      ensures !Falsy(roomCode) && messageIds.Some? && messageIds.value != [] ==>
                && messages == DeleteMany(old(messages), IdsInRoom(messageIds.value, ToUpperCase(roomCode.value)))
                && res == MessagesRemoved(|old(messages)| - |messages|)
    {
      if Falsy(roomCode) || messageIds.None? || messageIds.value == [] {
        return Failure(400, IdsRequired);
      }
      var code := ToUpperCase(roomCode.value);
      var before := |messages|;
      DeleteManyKeepsIdsIncreasing(messages, IdsInRoom(messageIds.value, code));
      messages := DeleteMany(messages, IdsInRoom(messageIds.value, code));
      res := MessagesRemoved(before - |messages|);
    }

    /** Socket `joinRoom`: joins the upper-cased (untrimmed) code without
        checking that the room exists, then sends its history to the caller.
        `data` is None when the payload is `undefined` or `null`, which the
        destructuring throws on; any other payload that is not an object has
        no fields and is `Some(Payload(None, None, None, None))`. */
    method OnJoinRoom(conn: ConnId, data: Option<Payload>) returns (out: seq<Emission>)
      modifies this`membership
      ensures data.None? ==>
                out == [ToCaller(conn, Error(JoinFailed))] && membership == old(membership)
      ensures data.Some? && Falsy(data.value.roomCode) ==>
                out == [ToCaller(conn, Error(RoomCodeRequired))] && membership == old(membership)
      ensures data.Some? && !Falsy(data.value.roomCode) ==>
                var code := ToUpperCase(data.value.roomCode.value);
                && membership == Joined(old(membership), conn, code)
                && out == [ToCaller(conn, PreviousMessages(ListRecent(messages, code)))]
    {
      if data.None? {
        return [ToCaller(conn, Error(JoinFailed))];
      }
      if Falsy(data.value.roomCode) {
        return [ToCaller(conn, Error(RoomCodeRequired))];
      }
      var code := ToUpperCase(data.value.roomCode.value);
      membership := Joined(membership, conn, code);
      out := [ToCaller(conn, PreviousMessages(ListRecent(messages, code)))];
    }

    /** Socket `requestMessages`: the history to the caller alone. */
    method OnRequestMessages(conn: ConnId, data: Option<Payload>) returns (out: seq<Emission>)
      ensures data.None? || Falsy(data.value.roomCode) ==>
                out == [ToCaller(conn, Error(RoomCodeRequired))]
      ensures data.Some? && !Falsy(data.value.roomCode) ==>
                out == [ToCaller(conn, PreviousMessages(ListRecent(messages, ToUpperCase(data.value.roomCode.value))))]
    {
      if data.None? || Falsy(data.value.roomCode) {
        return [ToCaller(conn, Error(RoomCodeRequired))];
      }
      var code := ToUpperCase(data.value.roomCode.value);
      out := [ToCaller(conn, PreviousMessages(ListRecent(messages, code)))];
    }

    /** Socket `sendMessage`: validates and cleans the message, appends it
        with a fresh id and the time `now`, and sends it to every member of
        the room. Whether the room exists is not checked. */
    method OnSendMessage(conn: ConnId, data: Option<Payload>, now: int) returns (out: seq<Emission>)
      requires Valid()
      modifies this`messages, this`nextId
      ensures Valid()
      ensures data.None? ==>
                out == [ToCaller(conn, Error(SendFailed))] && messages == old(messages) && nextId == old(nextId)
      ensures data.Some? && PrepareMessage(data.value).Rejected? ==>
                out == [ToCaller(conn, Error(PrepareMessage(data.value).reason))] && messages == old(messages)
                && nextId == old(nextId)
      ensures data.Some? && PrepareMessage(data.value).Accepted? ==>
                var d := PrepareMessage(data.value).value;
                var m := Message(old(nextId), d.roomCode, d.sender, d.body, now);
                && messages == old(messages) + [m]
                && nextId == old(nextId) + 1
                && out == [ToRoom(membership, d.roomCode, NewMessage(m))]
    {
      if data.None? {
        return [ToCaller(conn, Error(SendFailed))];
      }
      var checked := PrepareMessage(data.value);
      if checked.Rejected? {
        return [ToCaller(conn, Error(checked.reason))];
      }
      var d := checked.value;
      var m := Message(nextId, d.roomCode, d.sender, d.body, now);
      AcceptedIsWellFormed(data.value, nextId, now);
      messages := messages + [m];
      nextId := nextId + 1;
      out := [ToRoom(membership, d.roomCode, NewMessage(m))];
    }

    /** Socket `messagesDeleted`: relays the notice to the whole room; the
        store is not touched. */
    method OnMessagesDeleted(conn: ConnId, data: Option<Payload>) returns (out: seq<Emission>)
      ensures data.None? || Falsy(data.value.roomCode) || data.value.messageIds.None? ==> out == []
      ensures data.Some? && !Falsy(data.value.roomCode) && data.value.messageIds.Some? ==>
                var code := ToUpperCase(data.value.roomCode.value);
                out == [ToRoom(membership, code, MessagesDeleted(code, data.value.messageIds.value))]
    {
      if data.None? || Falsy(data.value.roomCode) || data.value.messageIds.None? {
        return [];
      }
      var code := ToUpperCase(data.value.roomCode.value);
      out := [ToRoom(membership, code, MessagesDeleted(code, data.value.messageIds.value))];
    }

    /** Socket `typing`: the payload, as received, to the other members. */
    method OnTyping(conn: ConnId, data: Payload) returns (out: seq<Emission>)
      ensures Falsy(data.roomCode) ==> out == []
      ensures !Falsy(data.roomCode) ==>
                out == [ToOthersInRoom(membership, conn, ToUpperCase(data.roomCode.value), UserTyping(data))]
    {
      if Falsy(data.roomCode) {
        return [];
      }
      out := [ToOthersInRoom(membership, conn, ToUpperCase(data.roomCode.value), UserTyping(data))];
    }

    /** Socket `stopTyping`: an empty notice to the other members. */
    method OnStopTyping(conn: ConnId, data: Option<Payload>) returns (out: seq<Emission>)
      ensures data.None? || Falsy(data.value.roomCode) ==> out == []
      ensures data.Some? && !Falsy(data.value.roomCode) ==>
                out == [ToOthersInRoom(membership, conn, ToUpperCase(data.value.roomCode.value), UserStoppedTyping)]
    {
      if data.None? || Falsy(data.value.roomCode) {
        return [];
      }
      out := [ToOthersInRoom(membership, conn, ToUpperCase(data.value.roomCode.value), UserStoppedTyping)];
    }

    /** Socket `disconnect`: the handler only logs; socket.io itself drops
        the connection from every room it joined. */
    method OnDisconnect(conn: ConnId)
      modifies this`membership
      ensures membership == old(membership) - {conn}
      ensures forall code :: RoomMembers(membership, code) == RoomMembers(old(membership), code) - {conn}
    {
      membership := membership - {conn};
    }

    /** `deleteOldMessages`: removes every message, of any room, whose
        timestamp is earlier than 24 hours before `now`; returns how many. */
    method DeleteOldMessages(now: int) returns (deletedCount: nat)
      requires Valid()
      modifies this`messages
      ensures Valid()
      ensures messages == DeleteMany(old(messages), OlderThan(now - RetentionMs))
      ensures forall m :: m in messages <==> m in old(messages) && m.timestamp >= now - RetentionMs
      ensures deletedCount == |old(messages)| - |messages|
    {
      var before := |messages|;
      DeleteManyKeepsIdsIncreasing(messages, OlderThan(now - RetentionMs));
      messages := DeleteMany(messages, OlderThan(now - RetentionMs));
      deletedCount := before - |messages|;
    }
  }
}
