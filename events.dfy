/** What the server emits, and to whom. An emission is recorded with the set of connections
    it reaches, computed when it is emitted: `io.to(room)` reaches the sockets in the room,
    `io.emit` every socket, `socket.broadcast.emit` every socket but the sender's and
    `socket.emit` the sender's alone. */
module Events {
  import opened Wrappers
  import opened Models

  /** A socket id. */
  type ConnId = string

  /** `{ userId, chatId, isTyping }`, relayed as received. */
  datatype TypingPayload = TypingPayload(userId: string, chatId: string, isTyping: bool)

  /** The `message:send` payload. The handler reads the optional flag under the name
      `isForworded`; a client that sends `isForwarded` is read as not forwarded. */
  datatype SendPayload = SendPayload(content: string, chatId: string, isForworded: Option<bool>)

  /** The sender as `message:receive` describes it. */
  datatype SenderView = SenderView(id: string, name: Option<string>, avatar: Option<string>)

  /** The message as `message:receive` describes it; `timestamp` is the creation time and
      `isForwarded` is `undefined` (`None`) when the document does not carry the field. */
  datatype MessageView = MessageView(
    id: string, sender: SenderView, chat: string, content: string,
    status: Status, timestamp: nat, isForwarded: Option<bool>)

  datatype ServerEvent =
    | PresenceList(userIds: seq<string>)
    | PresenceOnline(userId: string)
    | PresenceOffline(userId: string)
    | MessageReceive(message: MessageView, chatId: string)
    | ChatRead(chatId: string, userId: string)
    | TypingStart(data: TypingPayload)
    | TypingStop(data: TypingPayload)

  datatype Delivery = Delivery(recipients: set<ConnId>, event: ServerEvent)
}
