/** `sendMessage` over REST: a presence check of `content` and `chat`, then an insert. Unlike
    the socket handler it neither updates the chat nor emits anything. */
module MessageController {
  import opened Wrappers
  import opened Models
  import Store
  import Protect
  import Text

  datatype MessageReply =
    | Rejected(status: nat, message: string)
    | Created(status: nat, doc: Message)
      /** `Message.create` threw: no sender id, content that trims to nothing, or a sender
          or chat that does not cast to an ObjectId. */
    | ServerError

  /** The fields handed to `Message.create`: sender from `req.user?.id`. An empty id does
      not cast to an ObjectId, which also ends in an error, so it counts as missing. */
  function RequestFields(sender: Option<string>, content: string, chat: string): (f: MessageFields)
    ensures f.content == Some(content) && f.chat == Some(chat)
    ensures f.sender.Some? <==> Protect.Truthy(sender)
    ensures f.sender.Some? ==> f.sender == sender
    ensures f.status.None? && f.isForwarded.None?
  {
    MessageFields(if Protect.Truthy(sender) then sender else None, Some(content), Some(chat), None, None)
  }

  /** `sendMessage`; `castable` is Mongoose's ObjectId cast test. */
  method SendMessage(db: Store.Db, sender: Option<string>, content: Option<string>, chat: Option<string>,
                     now: nat, castable: string -> bool)
    returns (reply: MessageReply)
    requires db.Valid()
    modifies db`messages
    ensures db.Valid()
    ensures !(Protect.Truthy(content) && Protect.Truthy(chat)) ==>
      reply == Rejected(400, "Content and chat are required") && db.messages == old(db.messages)
    ensures reply.Created? <==> db.messages != old(db.messages)
    ensures reply.Created? ==>
      && reply.status == 201
      && db.messages == old(db.messages) + [reply.doc]
      && Protect.Truthy(sender) && reply.doc.sender == sender.value
      && reply.doc.chat == chat.value && reply.doc.status == Sent
      && reply.doc.id !in Store.MessageIds(old(db.messages))
    ensures reply.Created? ==>
      && Protect.Truthy(content) && Protect.Truthy(chat)
      && CreateMessage(RequestFields(sender, content.value, chat.value), reply.doc.id, now) == Ok(reply.doc)
      && castable(sender.value) && castable(chat.value)
      && reply.doc.content == Text.Trim(content.value) && reply.doc.content != ""
      && reply.doc.createdAt == now && reply.doc.updatedAt == now
    ensures Protect.Truthy(content) && Protect.Truthy(chat) ==>
      (reply.Created? <==> CreateCastMessage(RequestFields(sender, content.value, chat.value),
                                             Store.FreshId(Store.MessageIds(old(db.messages))), now, castable).Ok?)
    ensures Protect.Truthy(content) && Protect.Truthy(chat) && !castable(chat.value) ==>
      reply == ServerError && db.messages == old(db.messages)
  {
    if !(Protect.Truthy(content) && Protect.Truthy(chat)) {
      return Rejected(400, "Content and chat are required");
    }
    var id := Store.FreshId(Store.MessageIds(db.messages));
    var created := CreateCastMessage(RequestFields(sender, content.value, chat.value), id, now, castable);
    if created.Err? {
      return ServerError;
    }
    db.InsertMessage(created.value);
    reply := Created(201, created.value);
  }
}
