/** The typing relay: `typing:start` and `typing:stop` are re-emitted with
    `socket.broadcast.emit`, so they reach every other connected socket, in any room. */
module Typing {
  import opened Events

  datatype TypingKind = Start | Stop

  /** `socket.broadcast.emit`'s reach: every connection but the sender's. */
  function BroadcastRecipients(sender: ConnId, connected: set<ConnId>): (r: set<ConnId>)
    ensures sender !in r
    ensures r <= connected
    ensures forall c :: c in connected && c != sender ==> c in r
  {
    connected - {sender}
  }

  function EventOf(kind: TypingKind, data: TypingPayload): (e: ServerEvent)
    ensures kind == Start <==> e.TypingStart?
    ensures kind == Stop <==> e.TypingStop?
    ensures (e.TypingStart? || e.TypingStop?) && e.data == data
  {
    match kind
    case Start => TypingStart(data)
    case Stop => TypingStop(data)
  }

  /** The one delivery a typing event produces: the received payload, unchanged and under
      the received event name, to every other socket. */
  function Relay(sender: ConnId, connected: set<ConnId>, kind: TypingKind, data: TypingPayload): (d: Delivery)
    ensures d.recipients == connected - {sender}
    ensures d.event == EventOf(kind, data)
  {
    Delivery(BroadcastRecipients(sender, connected), EventOf(kind, data))
  }

  /** Room membership plays no part: the same connections get the event whichever rooms
      they joined, so members of unrelated chats are told too. */
  lemma RelayIgnoresRooms(sender: ConnId, connected: set<ConnId>, kind: TypingKind, data: TypingPayload, c: ConnId)
    requires c in connected && c != sender
    ensures c in Relay(sender, connected, kind, data).recipients
  {
  }
}
