# Chat-app room and message engine, in Dafny

This project models the core of a small room-based chat application. The
backend (`backend/server.js`) is an Express and socket.io server over two
MongoDB collections. The `rooms` collection maps a canonical room code to
the room's creator. The `messages` collection holds messages with an id, a
room code, a sender, a body and a timestamp in milliseconds. The frontend
pieces modelled here are:

- the typing indicator of the message composer (`MessageInput.js`);
- the message list's 12-hour time label and its grouping by date (`MessageList.js`);
- the top-level client state that socket events, login and logout update (`App.js`).

Modules:

- `JsText` models the JavaScript string primitives the code relies on:
  - the falsiness of a payload field;
  - `trim`, with the full ECMAScript white-space and line-terminator set;
  - `toUpperCase`, on ASCII letters;
  - `substring(0, n)`;
  - decimal rendering of small numbers and `padStart(2, '0')`.
- `Protocol` holds the stored message record, the socket payload (every field optional) and the server's outgoing events. An emission pairs an event with the set of connections it reaches.
- `ScriptTags` implements the global, case-insensitive script-element regex of `sendMessage` as a left-to-right scan over the string.
- `MessageQuery` models the MongoDB filter documents the server uses, as functions of the collection's contents:
  - `find` and `deleteMany`;
  - a stable ascending sort on timestamp;
  - the history listing `find({ roomCode }).sort({ timestamp: 1 }).limit(100)`, which yields the room's *oldest* hundred messages.
- `Server` has a class `ChatServer` with fields `rooms`, `messages`, `nextId` and `membership`. Its methods are:
  - the REST routes;
  - the socket handlers;
  - the retention sweep.

  `membership` is socket.io's room membership, a map from connection to the set of room codes it joined. Each handler is one atomic step. It returns its HTTP response, or the list of emissions with their recipient sets. The fan-out rules are:
  - `io.to(code)` reaches every member of the room;
  - `socket.to(code)` reaches every member except the emitter;
  - `socket.emit` reaches the caller alone.
- `MessageList` has `FormatTime` (hour and minute as inputs) and `GroupMessagesByDate`, a loop that builds the date-keyed dictionary. The date key is a function of the timestamp passed in, standing for `new Date(t).toDateString()`.
- `MessageInput` has a class `Composer`. Its fields are the textarea's text, `isTyping`, `typingTimeoutRef.current` and the set of armed timers. Timers are explicit: `HandleChange` arms one and clears the previous one, and `TimerFires` is the event loop running an armed one.
- `App` has a class `ChatClient` with `username`, `isLoggedIn`, `messages`, `typingUsers`, and the localStorage entry `chatUsername`.

Clock readings (`Date.now()`, `new Date()`) are parameters named `now`. Connection ids, message ids and timer ids are natural numbers.

## Model

| member | source | states |
|---|---|---|
| `JsText.Trim` | backend/server.js:118 | `s.trim()` is a slice of `s` whose dropped ends are all white space and whose own ends are not |
| `JsText.BlankIffAllWhiteSpace` | backend/server.js:118 | `!s.trim()` holds exactly when every character of `s` is white space |
| `JsText.TrimIdempotent` | backend/server.js:126 | trimming a trimmed string changes nothing |
| `JsText.TrimCommutesWithUpperCase` | backend/server.js:126 | trimming and upper-casing can be done in either order |
| `JsText.Prefix` | backend/server.js:304-305 | `substring(0, n)` is the longest prefix of at most `n` characters |
| `JsText.NatToString` | frontend/src/components/MessageList.js:10 | the decimal rendering has only digits and no leading zero; it has one digit below 10 and two from 10 to 99 |
| `JsText.NatToStringRoundTrip` | frontend/src/components/MessageList.js:10 | reading the rendered digits back gives the number |
| `JsText.PadStart2` | frontend/src/components/MessageList.js:10 | `padStart(2, '0')` gives at least two characters: the input, behind as many zeros as it lacks |
| `ScriptTags.FindClose` | backend/server.js:308 | a closing tag it reports lies at or after the start position and wholly inside the text |
| `ScriptTags.FindCloseFirst` | backend/server.js:308 | the closing tag found is a `</script>` (any case) with none between the start position and it; none is reported only when none follows |
| `ScriptTags.MatchAtStart` | backend/server.js:308 | a match starting at index 0 spans at least an opening and a closing tag and ends inside the text |
| `ScriptTags.Strip` | backend/server.js:308 | the regex replacement never makes the body longer |
| `ScriptTags.StripWithoutCloseTag` | backend/server.js:308 | with no `</script>` anywhere, nothing is removed, whatever openings there are |
| `ScriptTags.StripWithoutOpenTag` | backend/server.js:308 | with no `<script` opening at a word boundary, nothing is removed |
| `ScriptTags.StripKeepsPrefix` | backend/server.js:308 | characters at which no match starts are kept in front of the stripped rest |
| `ScriptTags.StripInner` | backend/server.js:308 | `<script></script>` followed by text without openings leaves that text |
| `ScriptTags.StripJoinsPieces` | backend/server.js:308 | one pass over `<scr<script></script>ipt></script>` leaves `<script></script>` |
| `ScriptTags.JoinedPiecesMatch` | backend/server.js:308 | that leftover is itself one whole script element for the same pattern |
| `MessageQuery.Find` | backend/server.js:218 | `find(q)` holds exactly the collection's messages that match `q` |
| `MessageQuery.DeleteMany` | backend/server.js:200 | `deleteMany(q)` keeps exactly the messages that do not match `q` |
| `MessageQuery.DeleteManySplits` | backend/server.js:237-242 | what `deleteMany(q)` removes is what `find(q)` finds; the deleted count is their number |
| `MessageQuery.DeleteManyKeepsDisjoint` | backend/server.js:200 | deleting with `q` leaves the results of any query disjoint from `q` unchanged, order included |
| `MessageQuery.FindAppend` | backend/server.js:218 | `find` distributes over concatenation of collections |
| `MessageQuery.DeleteManyNoMatch` | backend/server.js:237-240 | a filter matching nothing deletes nothing |
| `MessageQuery.DeleteManyKeepsIdsIncreasing` | backend/server.js:200 | deletion keeps ids unique and in insertion order |
| `MessageQuery.InsertByTime` | backend/server.js:218 | inserting into a time-sorted list keeps it sorted and adds exactly that message |
| `MessageQuery.SortByTime` | backend/server.js:218 | `.sort({ timestamp: 1 })` is ascending and a permutation of its input |
| `MessageQuery.SortedPrefixIsOldest` | backend/server.js:218 | the first `k` of a time-sorted list are no later than any message left out |
| `MessageQuery.ListRecent` | backend/server.js:218 | the listing has only that room's messages, ascending by time, `min(100, n)` of them, and they are the room's oldest |
| `MessageQuery.ListRecentOfEmptyRoom` | backend/server.js:267-268 | a room with no messages (or no such room) lists nothing |
| `Server.CanonicalIgnoresCase` | backend/server.js:126 | codes that differ only in letter case give the same canonical code |
| `Server.CanonicalIdempotent` | backend/server.js:158 | a canonical code is its own canonical form |
| `Server.CanonicalOfNonBlank` | backend/server.js:118-126 | the canonical code is empty exactly for a blank code |
| `Server.CleanSender` | backend/server.js:304 | the sender is the prefix of the trimmed name of length min(its length, 50), empty exactly for a blank name |
| `Server.CleanBody` | backend/server.js:305-308 | the stored body is at most 1000 characters |
| `Server.PrepareMessage` | backend/server.js:297-321 | a missing field gives the fields-required error; with all three present, a blank sender or an empty cleaned body gives "Invalid input", and otherwise a blank room code gives "Failed to send message"; acceptance exactly when code and sender are non-blank and the cleaned body non-empty; the accepted fields are the canonical code, cleaned sender and cleaned body |
| `Server.AcceptedIsWellFormed` | backend/server.js:316-321 | an accepted message has a non-empty room, a sender of 1 to 50 and a body of 1 to 1000 characters |
| `Server.Joined` | backend/server.js:263 | `socket.join` adds one room to the caller's rooms and changes nobody else's |
| `Server.JoinOnlyAdds` | backend/server.js:263 | after a join, every room has the same members as before, plus the caller in the joined room |
| `Server.OtherRoomsUnreached` | backend/server.js:326 | a connection only in one room is not a member of any other |
| `Server.ToOthersInRoom` | backend/server.js:357 | `socket.to(code)` reaches exactly the room's members other than the emitter |
| `Server.ToRoomReachesMembersOnly` | backend/server.js:347 | a room-wide emit reaches a connection exactly when it joined that room |
| `Server.SenderReceivesOwnMessage` | backend/server.js:262-263 | a connection that joined with a code without surrounding spaces gets its own new message back |
| `Server.UntrimmedJoinMissesOwnMessage` | backend/server.js:303 | joining with " r1" and sending with " r1" stores under "R1", and the sender does not get its message back |
| `Server.CascadeSparesOtherRooms` | backend/server.js:200 | deleting a room's messages leaves every other room's history as it was |
| `Server.ScopedDeleteSparesOtherRooms` | backend/server.js:237-240 | deleting listed ids in one room leaves other rooms' histories as they were, even for ids of theirs |
| `Server.ChatServer.constructor` | backend/server.js:89-106 | both collections and all memberships start empty |
| `Server.ChatServer.CreateRoom` | backend/server.js:114-147 | blank code gives 400; blank creator gives 400; an existing canonical code gives 409; otherwise the room is stored under the canonical code with the trimmed creator; failures change nothing |
| `Server.ChatServer.VerifyRoom` | backend/server.js:150-171 | blank code gives 400; an absent canonical code gives 404; otherwise the canonical code and stored creator; nothing changes |
| `Server.ChatServer.DeleteRoom` | backend/server.js:174-210 | 400, 400, 404 and 403 change nothing; the creator's request removes the room's messages and then the room |
| `Server.ChatServer.GetMessages` | backend/server.js:213-223 | the history listing of the upper-cased, untrimmed code |
| `Server.ChatServer.DeleteMessages` | backend/server.js:226-247 | a missing code or a missing or empty id list gives 400; otherwise exactly the listed messages of that room go, and the count is the number removed |
| `Server.ChatServer.OnJoinRoom` | backend/server.js:254-273 | no code: an error to the caller and no join; otherwise joins the upper-cased code, whether or not the room exists, and sends the caller the history |
| `Server.ChatServer.OnRequestMessages` | backend/server.js:276-290 | no code: an error to the caller; otherwise the history to the caller alone |
| `Server.ChatServer.OnSendMessage` | backend/server.js:293-337 | a rejected payload sends the caller the reason and stores nothing; an accepted one appends exactly one message with a fresh id and sends it to every member of its room |
| `Server.ChatServer.OnMessagesDeleted` | backend/server.js:340-351 | with a code and ids, the notice goes to every member of the upper-cased room; otherwise nothing is sent |
| `Server.ChatServer.OnTyping` | backend/server.js:354-359 | with a code, the payload goes to the room's members except the typist; otherwise nothing |
| `Server.ChatServer.OnStopTyping` | backend/server.js:361-366 | with a code, the notice goes to the room's members except the emitter; otherwise nothing |
| `Server.ChatServer.OnDisconnect` | backend/server.js:369-371 | the connection leaves every room; every other membership is unchanged |
| `Server.ChatServer.DeleteOldMessages` | backend/server.js:375-387 | exactly the messages, of any room, older than `now` minus 24 hours are removed; the count is the number removed |
| `MessageList.DisplayHour` | frontend/src/components/MessageList.js:9 | `hours % 12 \|\| 12` is between 1 and 12 and agrees with the hour modulo 12 |
| `MessageList.HourField` | frontend/src/components/MessageList.js:9-10 | the hour field is one or two digits without a leading zero, reading an hour of 1 to 12 that agrees with the hour modulo 12 |
| `MessageList.PaddedMinutes` | frontend/src/components/MessageList.js:10 | the minute field is exactly two digits, zero-padded, reading the minute |
| `MessageList.LabelFacts` | frontend/src/components/MessageList.js:8-10 | a label assembled from a valid hour field, a two-digit minute field and the AM/PM suffix has the `h:mm AM` layout and reads back the hour modulo 12 and the minute |
| `MessageList.FormatTime` | frontend/src/components/MessageList.js:4-11 | the label is `h:mm AM` or `h:mm PM`: suffix AM exactly before noon, two minute digits reading the minute, and an hour of 1 to 12, with no leading zero, that agrees with the hour modulo 12 |
| `MessageList.FormatTimeRoundTrip` | frontend/src/components/MessageList.js:8-10 | the label gives back the hour (0 to 23) and the minute |
| `MessageList.DateKeysDistinct` | frontend/src/components/MessageList.js:32-34 | the group keys are distinct |
| `MessageList.DateKeysAreKeysOfMessages` | frontend/src/components/MessageList.js:31-34 | a key is listed exactly when some message has that date key |
| `MessageList.OnDateMembers` | frontend/src/components/MessageList.js:35 | a group holds exactly the messages with its date key |
| `MessageList.NoGroupWithoutKey` | frontend/src/components/MessageList.js:32-35 | a date no message has gets no messages: the loop may start a new key with an empty array |
| `MessageList.GroupedStep` | frontend/src/components/MessageList.js:31-36 | one forEach step (a fresh empty array for a new key, then a push) turns the dictionary of a prefix into the dictionary of the prefix and one more message |
| `MessageList.GroupMessagesByDate` | frontend/src/components/MessageList.js:28-38 | the dictionary's keys are the date keys in order of first occurrence, and each key's array is that date's messages in input order |
| `MessageList.GroupsNonEmpty` | frontend/src/components/MessageList.js:32-35 | every group shown has at least one message |
| `MessageList.OnDateAppend` | frontend/src/components/MessageList.js:35 | within a group, messages keep their input relative order |
| `MessageList.DateKeysPrefix` | frontend/src/components/MessageList.js:32-34 | keys are listed by first occurrence: later messages only add keys at the end |
| `MessageList.GroupSizesTotal` | frontend/src/components/MessageList.js:29-36 | the group sizes add up to the number of messages, so each message is in exactly one group |
| `MessageInput.Composer.AtMostOneArmed` | frontend/src/components/MessageInput.js:73-82 | at most one stop-typing timer is armed, and it is the one in the ref |
| `MessageInput.Composer.constructor` | frontend/src/components/MessageInput.js:4-7 | empty text, not typing, no timer |
| `MessageInput.Composer.HandleChange` | frontend/src/components/MessageInput.js:62-83 | the text is taken; `onTyping(true)` exactly once for non-blank text when not yet typing; the old timer is cleared and a single new one armed |
| `MessageInput.Composer.TimerFires` | frontend/src/components/MessageInput.js:78-82 | typing stops, `onTyping(false)` once, and no timer is left |
| `MessageInput.Composer.HandleSubmit` | frontend/src/components/MessageInput.js:85-100 | a blank text changes nothing; otherwise the untrimmed text is sent, the text emptied, typing stopped with `onTyping(false)`, and the timer cleared |
| `MessageInput.Composer.HandleKeyPress` | frontend/src/components/MessageInput.js:102-107 | Enter without Shift submits; any other key, Shift+Enter included, does nothing |
| `MessageInput.Composer.Unmount` | frontend/src/components/MessageInput.js:117-124 | the cleanup clears the armed timer and changes nothing else |
| `App.WithTypingUser` | frontend/src/App.js:38-43 | the sender ends up listed; the list only grows, by at most that sender; no duplicates are introduced |
| `App.WithTypingUserIdempotent` | frontend/src/App.js:39-42 | a repeated notice from the same sender changes nothing |
| `App.WithTypingUserOrder` | frontend/src/App.js:40 | typists are listed in the order of their first notice |
| `App.ChatClient.constructor` | frontend/src/App.js:11-15 | logged out, no name, no messages, nobody typing |
| `App.ChatClient.RestoreSession` | frontend/src/App.js:78-84 | a non-empty saved name logs in under it; otherwise nothing changes |
| `App.ChatClient.OnPreviousMessages` | frontend/src/App.js:27-29 | the history replaces the message list |
| `App.ChatClient.OnNewMessage` | frontend/src/App.js:32-34 | the message is appended and earlier ones are unchanged |
| `App.ChatClient.OnUserTyping` | frontend/src/App.js:37-44 | the sender is added only when absent, so the list never has duplicates |
| `App.ChatClient.OnUserStoppedTyping` | frontend/src/App.js:46-48 | the whole typing list is emptied, whoever stopped |
| `App.ChatClient.HandleLogin` | frontend/src/App.js:57-64 | a blank name changes nothing; otherwise the trimmed name is logged in and saved |
| `App.ChatClient.HandleLogout` | frontend/src/App.js:66-75 | logged out, empty name, empty message list, saved name removed; the typing list is kept |

## Left out

- Storage and runtime failures are not modelled. A failing MongoDB call leads to the 500 answers and the `catch` branches that only log. Of the failures on save, only the schema validator rejecting an empty canonical room code is modelled, as the "Failed to send message" error.
- Payload fields are absent or strings. A non-string field (a number, an object) makes `trim` or `toUpperCase` throw; a truthy `messageIds` that is not an array (a string, say) is relayed by `messagesDeleted` as it is, which `Option<seq<MessageId>>` cannot express; a malformed id in `messageIds` makes MongoDB raise a cast error; none of these is modelled. A payload that is `undefined` or `null` (`None`) is modelled where destructuring it throws and the handler catches the error (`joinRoom`, `sendMessage`, `messagesDeleted`) or where the handler defaults it (`requestMessages`, `stopTyping`); any other payload that is not an object has no fields, so it is `Some(Payload(None, None, None, None))` and takes the missing-field paths.
- Server.ChatServer.OnTyping: takes a payload object. A `typing` event without one throws outside any `try` in the source, and that throw is not modelled.
- `toUpperCase` is modelled on ASCII letters only; Unicode case mapping (including the length-changing ones such as `ß`), and `substring` counting UTF-16 code units rather than code points, are not modelled. Mongoose's `uppercase: true` schema option is therefore the identity on the already upper-cased codes.
- The order MongoDB gives to messages with equal timestamps is unspecified; the model sorts stably, keeping collection order among equal timestamps.
- MongoDB ObjectIds are modelled as an increasing counter `nextId`; their hex encoding and the `_id` comparison of `$in` are not modelled.
- socket.io's implicit room named after each socket's own id, the transport, CORS, connection set-up, and `setInterval` scheduling of the sweep are not modelled; the sweep is a method taking `now`.
- Concurrency: interleavings at the `await` points (between save and broadcast, between the cascade delete and the room delete, with concurrent sends) are not modelled; each handler is one atomic step.
- Server.ChatServer.OnDisconnect: the handler itself only logs; the removal from every room that the model states is what socket.io does on disconnect.
- Date and time-zone conversions are inputs: the local hour and minute of `formatTime`, and the date key standing for `toDateString()`. `formatDate` (Today / Yesterday / `toLocaleDateString()`) depends only on the clock and the locale and is not modelled.
- MessageList.GroupMessagesByDate: the order of the dictionary's keys is insertion order, as JavaScript gives for keys that are not array indices; `toDateString()` never yields such a key.
- The DOM and foreign APIs: transliteration loading, textarea resizing and all rendering are not modelled, nor are the login, room-code, room-creation and chat-window screens.
- App.js's socket lifecycle is not modelled: the connection it opens on login, its `requestMessages` call and its close on logout or unmount.
- React state updates are modelled as taking effect at once. Within one render, `handleChange` reads the `isTyping` of that render, which the model treats as the current value.
- Timer ids: `setTimeout` ids are modelled as fresh positive numbers. Only the effect of `clearTimeout` on whether a timer is still armed is modelled.
