/** The records the server stores and the events it exchanges with its
    connections. */
module Protocol {
  import opened JsText

  /** A server-assigned message id (a fresh MongoDB ObjectId in the source). */
  type MessageId = nat

  /** A socket connection id. */
  type ConnId = nat

  /** A stored chat message; `timestamp` is in milliseconds. */
  datatype Message = Message(id: MessageId, roomCode: string, sender: string, body: string, timestamp: int)

  /** The fields of an inbound socket payload that the handlers read. */
  datatype Payload = Payload(
    roomCode: Option<string>,
    sender: Option<string>,
    message: Option<string>,
    messageIds: Option<seq<MessageId>>)

  /** Events the server emits to connections. */
  datatype ServerEvent =
    | PreviousMessages(list: seq<Message>)
    | NewMessage(msg: Message)
    | UserTyping(data: Payload)
    | UserStoppedTyping
    | MessagesDeleted(roomCode: string, ids: seq<MessageId>)
    | Error(reason: string)

  /** One emit: an event and the connections it reaches. */
  datatype Emission = Emission(to: set<ConnId>, event: ServerEvent)
}
