/** The persisted documents of the backend (Mongoose schemas), as values. Identifiers and
    references are strings; timestamps are abstract clock readings (`nat`). */
module Models {
  import opened Wrappers
  import Text

  // ---------------------------------------------------------------- message status

  /** The `status` enum of a message. */
  datatype Status = Sent | Delivered | Read

  /** The spelling stored in documents and sent on the wire. */
  function StatusName(s: Status): string {
    match s
    case Sent => "sent"
    case Delivered => "delivered"
    case Read => "read"
  }

  /** Enum membership: which strings are statuses. */
  function ParseStatus(name: string): (r: Option<Status>)
    ensures r.Some? <==> name == "sent" || name == "delivered" || name == "read"
    ensures r.Some? ==> StatusName(r.value) == name
  {
    if name == "sent" then Some(Sent)
    else if name == "delivered" then Some(Delivered)
    else if name == "read" then Some(Read)
    else None
  }

  lemma ParseStatusName(s: Status)
    ensures ParseStatus(StatusName(s)) == Some(s)
  {
  }

  /** The order in which a message is meant to advance: sent, delivered, read. */
  function Rank(s: Status): nat {
    match s
    case Sent => 0
    case Delivered => 1
    case Read => 2
  }

  /** The schema default of `status`. */
  const DefaultStatus: Status := Sent

  // ---------------------------------------------------------------- message

  datatype Message = Message(
    id: string,
    sender: string,
    content: string,
    chat: string,
    status: Status,
    createdAt: nat,
    updatedAt: nat)

  /** The fields handed to `Message.create`; a missing field is `None`. The schema has no
      `isForwarded` path, so in strict mode that field is discarded and never stored. */
  datatype MessageFields = MessageFields(
    sender: Option<string>,
    content: Option<string>,
    chat: Option<string>,
    status: Option<Status>,
    isForwarded: Option<bool>)

  /** A failed schema validation, naming the paths whose `required` check failed. */
  datatype ValidationError = ValidationError(paths: set<string>)

  /** Mongoose's `required` on a string path: present and not the empty string. */
  predicate PresentString(v: Option<string>) { v.Some? && v.value != "" }

  /** The required paths of a message that fail validation. `content` is trimmed before it
      is validated, so white space alone fails (`Text.TrimEmptyIffBlank`). */
  function MissingMessagePaths(f: MessageFields): (r: set<string>)
    ensures "sender" in r <==> f.sender.None?
    ensures "chat" in r <==> f.chat.None?
    ensures "content" in r <==> f.content.None? || Text.IsBlank(f.content.value)
    ensures r <= {"sender", "content", "chat"}
  {
    (if f.sender.None? then {"sender"} else {})
    + (if f.content.None? || Text.IsBlank(f.content.value) then {"content"} else {})
    + (if f.chat.None? then {"chat"} else {})
  }

  /** `Message.create`: the schema's setters and defaults applied, then validation. The new
      document carries the timestamps `now`. */
  function CreateMessage(f: MessageFields, id: string, now: nat): (r: Result<Message, ValidationError>)
    ensures r.Ok? <==> MissingMessagePaths(f) == {}
    ensures r.Err? ==> r.error.paths == MissingMessagePaths(f) && r.error.paths != {}
    ensures r.Ok? ==>
      && r.value.id == id
      && r.value.sender == f.sender.value
      && r.value.chat == f.chat.value
      && r.value.content == Text.Trim(f.content.value) && r.value.content != ""
      && (f.status.None? ==> r.value.status == DefaultStatus)
      && (f.status.Some? ==> r.value.status == f.status.value)
      && r.value.createdAt == now && r.value.updatedAt == now
  {
    var missing := MissingMessagePaths(f);
    if missing != {} then Err(ValidationError(missing))
    else
      Text.TrimEmptyIffBlank(f.content.value);
      Ok(Message(id, f.sender.value, Text.Trim(f.content.value), f.chat.value,
                 f.status.GetOr(DefaultStatus), now, now))
  }

  /** The ObjectId paths of the fields whose value Mongoose cannot cast to an ObjectId;
      `castable` is that test (`mongoose.Types.ObjectId`'s format check), not modelled. */
  function UncastPaths(f: MessageFields, castable: string -> bool): (r: set<string>)
    ensures r <= {"sender", "chat"}
    ensures "sender" in r <==> f.sender.Some? && !castable(f.sender.value)
    ensures "chat" in r <==> f.chat.Some? && !castable(f.chat.value)
  {
    (if f.sender.Some? && !castable(f.sender.value) then {"sender"} else {})
    + (if f.chat.Some? && !castable(f.chat.value) then {"chat"} else {})
  }

  /** `Message.create` with Mongoose's casting: a sender or chat that is no ObjectId is a
      `CastError` inside the `ValidationError`, next to the missing paths, and nothing is
      created; with every id castable it is `CreateMessage`. */
  function CreateCastMessage(f: MessageFields, id: string, now: nat, castable: string -> bool)
    : (r: Result<Message, ValidationError>)
    ensures r.Ok? <==> UncastPaths(f, castable) == {} && CreateMessage(f, id, now).Ok?
    ensures r.Ok? ==> r == CreateMessage(f, id, now)
    ensures r.Err? ==> r.error.paths == MissingMessagePaths(f) + UncastPaths(f, castable)
    ensures UncastPaths(f, castable) == {} ==> r == CreateMessage(f, id, now)
  {
    var uncast := UncastPaths(f, castable);
    if uncast == {} then CreateMessage(f, id, now)
    else Err(ValidationError(MissingMessagePaths(f) + uncast))
  }

  /** A stored message's content is already trimmed: trimming it again changes nothing. */
  lemma CreatedContentIsTrimmed(f: MessageFields, id: string, now: nat)
    requires CreateMessage(f, id, now).Ok?
    ensures Text.Trim(CreateMessage(f, id, now).value.content) == CreateMessage(f, id, now).value.content
  {
    Text.TrimIdempotent(f.content.value);
  }

  // ---------------------------------------------------------------- chat

  datatype Chat = Chat(
    id: string,
    chatName: Option<string>,
    isGroupChat: bool,
    participants: seq<string>,
    latestMessage: Option<string>,
    groupAdmin: Option<string>,
    createdAt: nat,
    updatedAt: nat)

  /** The fields handed to `Chat.create`. */
  datatype ChatFields = ChatFields(
    chatName: Option<string>,
    isGroupChat: Option<bool>,
    participants: seq<string>,
    groupAdmin: Option<string>)

  /** `Chat.create`: `chatName` is trimmed when given, `isGroupChat` defaults to false, there
      is no latest message yet. No path of a chat is required, so creation cannot fail. */
  function CreateChat(f: ChatFields, id: string, now: nat): (c: Chat)
    ensures c.id == id && c.participants == f.participants && c.groupAdmin == f.groupAdmin
    ensures f.chatName.None? ==> c.chatName.None?
    ensures f.chatName.Some? ==> c.chatName == Some(Text.Trim(f.chatName.value))
    ensures c.isGroupChat == (f.isGroupChat.Some? && f.isGroupChat.value)
    ensures c.latestMessage.None?
    ensures c.createdAt == now && c.updatedAt == now
  {
    Chat(id,
         if f.chatName.Some? then Some(Text.Trim(f.chatName.value)) else None,
         f.isGroupChat.GetOr(false),
         f.participants,
         None,
         f.groupAdmin,
         now, now)
  }

  // ---------------------------------------------------------------- user

  /** A user document as the core reads it. `register` writes `name`; the formatters and the
      user list read `userName`, which such documents do not carry. `refreshToken` is a
      plain path (no `select: false`), and `timestamps: true` adds the two dates. */
  datatype User = User(
    id: string,
    name: Option<string>,
    userName: Option<string>,
    email: string,
    password: string,
    avatar: Option<string>,
    refreshToken: Option<string>,
    createdAt: nat,
    updatedAt: nat)
}
