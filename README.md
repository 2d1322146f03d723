# Chat application core, modelled in Dafny

This project models the logic of a MERN chat application: an Express/Mongoose REST API, a
Socket.IO real-time server, and a React client. The model covers:

- **Real-time server.** Handshake authentication, the one-socket-per-user presence map,
  chat-room membership, message send, bulk read reconciliation and the typing relay. This is
  `SocketServer.ChatServer` over an in-memory `Store.Db`, with an append-only outbox of
  deliveries.
- **REST controllers and the access-token middleware.** Find-or-create for direct and group
  chats, the chat list (filtered, sorted newest first, formatted with an unread count),
  register-if-absent, the user list, and message creation.
- **Mongoose schemas and zod schemas** as datatypes and validating functions. The zod string
  steps run in declaration order, the way zod runs them.
- **Client state machines.** The socket connection manager, the reconnect back-off, the
  401 refresh-and-retry-once rule, the auth state mirrored into `localStorage`, and the
  presence list.
- **Selection, filter and form logic in the UI components.** The user picker, the
  forward-message dialog, the autocomplete, the new-chat and group-chat dialogs, the
  participant dialogs, and the profile and password forms.

Each source file becomes one module. Code that updates state step by step becomes a class
whose methods state the complete new state. Pure code becomes functions whose contracts are
proved as lemmas.

Abstracted parameters:

- JWT verification is a function parameter, `Jwt.Verifier`.
- `mongoose.Types.ObjectId.isValid` and the e-mail format checks are `string -> bool`
  parameters.
- Fresh ObjectIds come from `Store.FreshId`, which returns a string that is not an id in use.
- Server responses consumed by the client (`getMe`, login, refresh, the WebSocket token) are
  method parameters carrying either the value or the failure.

Where the code and the design notes of the application differ, the model follows the code:

- **Presence keeps one socket per user.** A second tab overwrites the entry. Closing either tab
  removes the user and broadcasts `presence:offline` (`SocketServer.TwoTabsThenOneCloses`).
- **No handler ever writes `delivered`.** Only `sent` and `read` are written.
- **Typing events go to every other connected socket**, not only to the chat's room.
- **The message schema has no `isForwarded` path**, so Mongoose drops the flag the handler
  passes. The handler also reads it from the misspelt payload field `isForworded`. The emitted
  view's `isForwarded` is therefore absent.
- **The sender-name field of a `message:receive` view is always absent.** The handler
  populates `name avatar` and then reads `userName`.
- **`getAllUsers` projects `userName`.** User documents have `name`, not `userName`, so the
  list items carry no name.
- **The group formatter reads `chatName` and a `chatAvatar` field** that the chat schema does
  not have, so the group avatar is always `''`.
- **`getChatById` does not check that the requester is a participant.**
- **`getUser` returns the stored refresh token.** Only `password` has `select: false`, so any
  signed-in caller who knows an id receives that user's refresh token and timestamps
  (`UserController.GetUserExposesRefreshToken`).
- **The zod request schemas are not mounted on the auth, chat and message routes**, and the
  `validate` middleware discards the parsed value. The schemas are modelled as declared.
- **The delete-participants dialog offers every user.** Its `includeUserIds` prop is not
  one `UserSelector` reads, so a user outside the chat can be picked and sent for removal
  (`ParticipantsDialogs.OutsiderSentForRemoval`).
- **Clearing the autocomplete reopens it.** `focus()` runs the `onFocus` handler of the
  render that still had text, so after a clear the dropdown is open and lists every option.
- **`register` stores the lowercased e-mail** (the user schema's `lowercase` setter) and looks
  it up lowercased. A second registration in other capitals is therefore refused.

## Model

| member | source | states |
|---|---|---|
| Models.ParseStatus | apps/backend/src/models/message.model.ts:17-20 | a status name parses iff it is one of sent, delivered, read, and parses back to that name |
| Models.ParseStatusName | apps/backend/src/models/message.model.ts:7-20 | every status round-trips through its name |
| Models.MissingMessagePaths | apps/backend/src/models/message.model.ts:14-16 | sender and chat are reported iff absent, content iff absent or blank |
| Models.CreateMessage | apps/backend/src/models/message.model.ts:12-26 | a message is created iff no required path is missing; content is stored trimmed and non-empty, status defaults to sent, both timestamps are the creation time |
| Models.UncastPaths | apps/backend/src/models/message.model.ts:14-16 | exactly the sender and chat paths whose value does not cast to an ObjectId |
| Models.CreateCastMessage | apps/backend/src/models/message.model.ts:12-26 | created iff every ObjectId path casts and no required path is missing, and then the same document as CreateMessage; a failure reports the missing and the uncast paths |
| Models.CreatedContentIsTrimmed | apps/backend/src/models/message.model.ts:15 | stored content is a fixed point of trim |
| Models.CreateChat | apps/backend/src/models/chat.model.ts:13-39 | chatName is trimmed when present, isGroupChat defaults to false, latestMessage starts absent, participants and groupAdmin are kept, timestamps set |
| Store.SetLatest | apps/backend/src/socket/handlers/message.handler.ts:26-28 | only the chat with that id gets the new latest message; the ids and every other chat are unchanged; a missing id changes nothing |
| Store.Db.InsertMessage | apps/backend/src/socket/handlers/message.handler.ts:17-23 | the message is appended and ids stay unique |
| Store.Db.InsertChat | apps/backend/src/controllers/chat.controller.ts:21-26 | the chat is appended and ids stay unique |
| Store.Db.InsertUser | apps/backend/src/controllers/auth.controller.ts:17 | the user is appended; ids and e-mails stay unique |
| Store.Db.UpdateLatestMessage | apps/backend/src/socket/handlers/message.handler.ts:26-28 | the chat store becomes SetLatest of the old one |
| Store.Db.MarkChatRead | apps/backend/src/socket/handlers/message.handler.ts:61-68 | the message store becomes MarkRead of the old one |
| Store.FindChat | apps/backend/src/controllers/chat.controller.ts:114 | the chat with that id, none iff no chat has it |
| Store.FindUser | apps/backend/src/controllers/user.controller.ts:21 | the user with that id, none iff no user has it |
| Store.FreshId | apps/backend/src/socket/handlers/message.handler.ts:17-23 | a new non-empty identifier not in use |
| SocketServer.PresenceAfterConnect | apps/backend/src/socket/handlers/presence.handler.ts:18-23 | recording a user's socket keeps every entry pointing at a live socket of its user, and changes only that user's entry |
| SocketServer.PresenceAfterDisconnect | apps/backend/src/socket/handlers/presence.handler.ts:25-30 | deleting a closing socket's user keeps every remaining entry pointing at a remaining socket of its user, and changes only that entry |
| SocketServer.ChatServer.constructor | apps/backend/src/socket/index.ts:19-30 | no sockets, an empty presence map, nothing delivered |
| ReadState.MarkRead | apps/backend/src/socket/handlers/message.handler.ts:61-68 | exactly the messages of that chat from another sender that are not read become read; all others are left as they were; the length is kept |
| ReadState.UnreadCount | apps/backend/src/utils/formatters.ts:20-24 | the count is at most the chat's message count, and is zero iff no message of the chat from another sender is unread |
| ReadState.UnreadAfterRead | apps/backend/src/utils/formatters.ts:20-24 | after a user's read of a chat that user's unread count there is 0 |
| ReadState.MarkReadIdempotent | apps/backend/src/socket/handlers/message.handler.ts:61-68 | reading a chat twice equals reading it once |
| ReadState.MarkReadMonotone | apps/backend/src/socket/handlers/message.handler.ts:65-67 | a status never moves back, a read message is untouched, and id, content, chat and sender are kept |
| ReadState.UnreadCountAppend | apps/backend/src/utils/formatters.ts:20-24 | one more message adds one to the count iff it is unread for that user |
| ReadState.UnreadCountOtherReader | apps/backend/src/socket/handlers/message.handler.ts:61-68 | another user's read never raises this user's unread count |
| SocketAuth.Authenticate | apps/backend/src/socket/index.ts:32-52 | a missing token, a payload without id, and a throwing verify give their three messages; success iff verify returns claims with an id, and the id is the user |
| SocketAuth.AcceptedNeedsVerification | apps/backend/src/socket/index.ts:40-51 | the same token is refused with 'Authentication failed' when verify throws |
| Typing.BroadcastRecipients | apps/backend/src/socket/handlers/typing.handler.ts:7 | every connected socket but the sender, and nothing else |
| Typing.EventOf | apps/backend/src/socket/handlers/typing.handler.ts:4-15 | start stays start, stop stays stop, and the payload is unchanged |
| Typing.Relay | apps/backend/src/socket/handlers/typing.handler.ts:4-15 | one delivery to all connected sockets but the sender, carrying the same event |
| Typing.RelayIgnoresRooms | apps/backend/src/socket/handlers/typing.handler.ts:7 | every other connected socket receives the event, whatever rooms it has joined |
| SocketServer.Joined | apps/backend/src/socket/handlers/chat.handler.ts:6-9 | the room is added and every other room membership is kept |
| SocketServer.Left | apps/backend/src/socket/handlers/chat.handler.ts:10-13 | the room is removed and every other room membership is kept |
| SocketServer.JoinIdempotent | apps/backend/src/socket/handlers/chat.handler.ts:8 | joining twice equals joining once |
| SocketServer.LeaveUnjoined | apps/backend/src/socket/handlers/chat.handler.ts:12 | leaving a room not joined changes nothing |
| SocketServer.JoinThenLeave | apps/backend/src/socket/handlers/chat.handler.ts:6-13 | join then leave of a new room restores the socket |
| SocketServer.RoomMembers | apps/backend/src/socket/handlers/message.handler.ts:37 | the room's recipients are exactly the sockets that joined it |
| SocketServer.SendFields | apps/backend/src/socket/handlers/message.handler.ts:17-23 | the create request carries the socket's user as sender, the payload's chat and content, status sent, and the isForworded flag defaulting to false |
| SocketServer.View | apps/backend/src/socket/handlers/message.handler.ts:31-52 | the emitted view copies id, chat, content, status and creation time; it has the sender's id and avatar, no sender name, and no isForwarded |
| SocketServer.ChatServer.GetOnlineUsers | apps/backend/src/socket/handlers/presence.handler.ts:32-34 | the list is duplicate-free and holds exactly the users in the presence map |
| SocketServer.ChatServer.Connect | apps/backend/src/socket/index.ts:32-63 | a refused handshake changes nothing; an accepted one registers the socket with its user, sends it the presence snapshot taken before its own entry, then records it and broadcasts online |
| SocketServer.ChatServer.RegisterPresence | apps/backend/src/socket/handlers/presence.handler.ts:6-16 | the snapshot is sent to the new socket first, then the connect step runs |
| SocketServer.ChatServer.HandleUserConnect | apps/backend/src/socket/handlers/presence.handler.ts:18-23 | with a user, the user maps to this socket (overwriting), every other entry is kept, and online is broadcast to all; without one nothing changes |
| SocketServer.ChatServer.Disconnect | apps/backend/src/socket/handlers/presence.handler.ts:25-30 | the socket is dropped; its user leaves the map even if another socket of that user is live, offline is broadcast, and other entries are kept |
| SocketServer.ChatServer.Join | apps/backend/src/socket/handlers/chat.handler.ts:6-9 | this socket is in the room afterwards; other sockets are unchanged |
| SocketServer.ChatServer.Leave | apps/backend/src/socket/handlers/chat.handler.ts:10-13 | this socket is not in the room afterwards; other sockets are unchanged |
| SocketServer.ChatServer.SendMessage | apps/backend/src/socket/handlers/message.handler.ts:13-53 | without a user, or when Message.create rejects (blank content, or a chat id that does not cast), nothing is stored or emitted; otherwise one message is stored with status sent, the chat's latest message is set, and, when the sender's record exists, message:receive with its view goes only to the room |
| SocketServer.ChatServer.StoreMessage | apps/backend/src/socket/handlers/message.handler.ts:17-28 | the message is appended, the chat's latest message is set, users are untouched |
| SocketServer.ChatServer.Announce | apps/backend/src/socket/handlers/message.handler.ts:31-52 | message:receive with the view goes to the chat's room iff the sender's document exists |
| SocketServer.ChatServer.ReadChat | apps/backend/src/socket/handlers/message.handler.ts:56-75 | without a user, or when the chat id or the reader's id does not cast so that updateMany rejects, nothing changes and nothing is emitted; otherwise the store becomes MarkRead and chat:read with chat and reader goes to the room |
| SocketServer.ChatServer.RelayTyping | apps/backend/src/socket/handlers/typing.handler.ts:3-16 | one Relay delivery is appended and no other state changes |
| SocketServer.ConnectTwoTabs | apps/backend/src/socket/handlers/presence.handler.ts:18-23 | a second tab of the same user replaces the first in the presence map; both sockets stay live |
| SocketServer.TwoTabsThenOneCloses | apps/backend/src/socket/handlers/presence.handler.ts:18-30 | two tabs of one user connect, one closes: the user is offline though a tab is live |
| JsMap.Keys | apps/backend/src/socket/handlers/presence.handler.ts:33 | the keys in insertion order |
| JsMap.Get | apps/backend/src/socket/handlers/presence.handler.ts:4 | present iff the key is set, with the stored value |
| JsMap.Set | apps/backend/src/socket/handlers/presence.handler.ts:20 | an existing key keeps its place, a new key is appended, and keys stay distinct |
| JsMap.Delete | apps/backend/src/socket/handlers/presence.handler.ts:27 | the key is gone, every other entry is kept, and keys stay distinct |
| JsMap.GetSet | apps/backend/src/socket/handlers/presence.handler.ts:20 | reading after set gives the new value for that key and the old value for any other |
| JsMap.GetDelete | apps/backend/src/socket/handlers/presence.handler.ts:27 | reading after delete gives nothing for that key and the old value for any other |
| JsMap.KeysDistinct | apps/backend/src/socket/handlers/presence.handler.ts:32-34 | a map with distinct keys lists no user twice |
| JsMap.KeysDelete | apps/backend/src/socket/handlers/presence.handler.ts:27-33 | the keys after delete are the old keys without that one |
| Formatters.PopulateUsers | apps/backend/src/controllers/chat.controller.ts:71 | populated participants are known users whose ids were listed, and every listed known id is present  |
| Formatters.PopulateUsersKnown | apps/backend/src/controllers/chat.controller.ts:71 | when every id is known, one document per id in the ids' order, repetitions kept |
| Formatters.PopulateUsersAppend | apps/backend/src/controllers/chat.controller.ts:71 | populating a concatenation of id lists is the concatenation of the populated parts, so the ids' order is kept and unknown ids drop out in place |
| Formatters.Populate | apps/backend/src/controllers/chat.controller.ts:70-72 | the populated chat keeps id, name, flags, admin and timestamp; its latest message is present iff the reference resolves to a stored message, and it is then the stored message with that id (`Store.FindMessage`) |
| Formatters.FirstOther | apps/backend/src/utils/formatters.ts:16-18 | none iff every participant is the current user; otherwise the first participant who is not |
| Formatters.LastMessage | apps/backend/src/utils/formatters.ts:31 | the latest message's content, or '' without one |
| Formatters.FormatChatResponse | apps/backend/src/utils/formatters.ts:12-38 | null iff no other participant; otherwise names the first other participant, with the unread count (bounded by the chat's messages), the last message, and isGroupChat false |
| Formatters.ParticipantViews | apps/backend/src/utils/formatters.ts:56-61 | one view per participant, in order, with id, name and avatar |
| Formatters.FormatGroupChatResponse | apps/backend/src/utils/formatters.ts:40-68 | memberCount equals the participant count and the views' count, participants in order, avatar '', isGroupChat true, the unread count and the last message |
| Formatters.Format | apps/backend/src/controllers/chat.controller.ts:76-83 | a group gives its group entry; a one-to-one chat gives none iff the direct formatter gives null, and otherwise exactly the direct formatter's entry; the result keeps the chat's id and timestamp |
| Formatters.UnreadClearedByRead | apps/backend/src/utils/formatters.ts:20-24 | after the user's read both formatters report unread 0 |
| ChatController.FindDirect | apps/backend/src/controllers/chat.controller.ts:12-15 | the first non-group chat holding both users, or none iff there is no such chat |
| ChatController.FindGroup | apps/backend/src/controllers/chat.controller.ts:43-47 | the first group chat whose stored name is the given one and that holds all participants, or none iff there is no such chat |
| ChatController.CountDirect | apps/backend/src/controllers/chat.controller.ts:12-26 | zero iff no direct chat between the pair exists |
| ChatController.CountDirectAppend | apps/backend/src/controllers/chat.controller.ts:21-26 | appending a chat adds one iff it is a direct chat of the pair |
| ChatController.FindDirectSymmetric | apps/backend/src/controllers/chat.controller.ts:14 | the lookup ignores the order of the two users |
| ChatController.CreateChat | apps/backend/src/controllers/chat.controller.ts:9-34 | an id that does not cast makes the handler fail and stores nothing; an existing direct chat is returned with 200 and nothing is stored; otherwise one chat [requester, user] is stored and returned with 201, where an absent userId becomes the id `new ObjectId()` makes up; the pair never gets a second direct chat |
| ChatController.CreateGroupChat | apps/backend/src/controllers/chat.controller.ts:36-67 | an existing group whose name is the trimmed name and that holds all participants is returned with 200; otherwise one group is stored with participants requester then users, isGroupChat true and the requester as admin, 201 |
| ChatController.ChatsOf | apps/backend/src/controllers/chat.controller.ts:70 | exactly the chats that list the user |
| ChatController.Insert | apps/backend/src/controllers/chat.controller.ts:73 | inserting into a newest-first list keeps it newest first and adds exactly that chat |
| ChatController.InsertHead | apps/backend/src/controllers/chat.controller.ts:73 | a chat no older than the rest may head a newest-first list |
| ChatController.SortNewestFirst | apps/backend/src/controllers/chat.controller.ts:73 | the result is newest first and a permutation of the input |
| ChatController.FormatOne | apps/backend/src/controllers/chat.controller.ts:76-83 | a formatted chat keeps its id and timestamp, and a group is never dropped |
| ChatController.FormatOneByType | apps/backend/src/controllers/chat.controller.ts:76-83 | a group gives its group entry; a one-to-one chat gives none iff every populated participant is the requester, otherwise the direct formatter's entry |
| ChatController.FormatAll | apps/backend/src/controllers/chat.controller.ts:75-86 | every item is what some input chat formats to, every chat with a non-null format has its entry listed, and a newest-first input gives newest-first items |
| ChatController.FormatAllStep | apps/backend/src/controllers/chat.controller.ts:75-86 | the head's entry in front of the tail's keeps all three properties of FormatAll |
| ChatController.FormatAllStepFrom | apps/backend/src/controllers/chat.controller.ts:75-86 | every entry of the step comes from a chat of the input |
| ChatController.FormatAllStepKept | apps/backend/src/controllers/chat.controller.ts:86 | the step drops no chat whose format is non-null |
| ChatController.RestNotNewer | apps/backend/src/controllers/chat.controller.ts:73 | in a newest-first input no entry of the tail is newer than the head |
| ChatController.FormatAllStepOrder | apps/backend/src/controllers/chat.controller.ts:73-86 | the step keeps a newest-first input newest first |
| ChatController.GetAllChats | apps/backend/src/controllers/chat.controller.ts:69-89 | every item is the format of one of the requester's chats, every chat of the requester with a non-null format is listed, items newest first, every group chat of the requester present, no more items than the requester's chats |
| ChatController.GetChatById | apps/backend/src/controllers/chat.controller.ts:109-124 | an id that does not cast makes findById reject; otherwise 404 'Chat not found' iff the id is unknown, else 200 with FormatOne of the stored chat (see FormatOneByType for which formatter runs) |
| AuthController.StoredEmail | apps/backend/src/models/user.model.ts:15 | the stored (lowercased) e-mail has the length of the given one |
| AuthController.Register | apps/backend/src/controllers/auth.controller.ts:5-19 | a missing field gives 400 and an existing e-mail gives 400 'User already exists', both leaving the store unchanged; otherwise exactly one user is stored, 201, with no refresh token and both timestamps now; the store changes iff a user is created |
| AuthController.StoredEmailIgnoresCase | apps/backend/src/models/user.model.ts:15 | an e-mail in capitals is stored, and looked up, as the same string |
| AuthController.RegisterTwice | apps/backend/src/controllers/auth.controller.ts:12-15 | registering again with the e-mail in capitals is refused |
| UserController.OtherUsers | apps/backend/src/controllers/user.controller.ts:12-13 | the order-keeping filter of the stored users on id != requester; exactly the users other than the requester |
| UserController.Project | apps/backend/src/controllers/user.controller.ts:14 | each item carries only userName and avatar |
| UserController.GetAllUsers | apps/backend/src/controllers/user.controller.ts:5-18 | 401 iff there is no current user; otherwise 200 with the projection of every other user |
| UserController.OtherUsersExact | apps/backend/src/controllers/user.controller.ts:12-13 | a user is listed iff it is not the requester |
| UserController.Selected | apps/backend/src/models/user.model.ts:18-33 | the default selection keeps every path of the document but the password |
| UserController.FindPublicUser | apps/backend/src/controllers/user.controller.ts:21 | none iff no user has the id; otherwise the first stored user with it, with every field but the password, refresh token and timestamps included |
| UserController.GetUser | apps/backend/src/controllers/user.controller.ts:20-23 | always 200, with the findById document (refresh token included) or null |
| UserController.GetUserExposesRefreshToken | apps/backend/src/controllers/user.controller.ts:20-23 | a caller who knows a stored id receives that user's refresh token |
| MessageController.RequestFields | apps/backend/src/controllers/message.controller.ts:10 | the create request carries content, chat and the request user as sender when there is one, and no status or isForwarded |
| MessageController.SendMessage | apps/backend/src/controllers/message.controller.ts:5-12 | missing content or chat gives 400 and stores nothing; a chat id that does not cast makes Message.create reject, storing nothing; otherwise the model's validation with casting decides, and a 201 stores exactly one message, the one Message.create builds: request user as sender, trimmed non-empty content, status sent, timestamps now |
| Protect.BearerToken | apps/backend/src/middlewares/protect.ts:6 | the second space-separated field of the header, present iff the header has one |
| Protect.AccessToken | apps/backend/src/middlewares/protect.ts:5-6 | the cookie when it is non-empty, else the bearer field |
| Protect.BearerHeaderToken | apps/backend/src/middlewares/protect.ts:5-6 | 'Bearer t' without a cookie yields t |
| Protect.HeaderWithoutSpace | apps/backend/src/middlewares/protect.ts:6 | a header with no space yields no token |
| Protect.Protect | apps/backend/src/middlewares/protect.ts:4-21 | no token gives 401 and a throwing verify gives 403 'Invalid access token', neither calling next; otherwise next with req.user the decoded payload |
| Protect.RequestUserId | apps/backend/src/controllers/user.controller.ts:6 | a string payload has no id; a claims payload gives its id |
| Zod.TypeMessage | apps/backend/src/validations/auth.validation.ts:6-8 | the custom message when given, 'Required' for an absent value |
| Zod.RunMinMaxTrim | apps/backend/src/validations/auth.validation.ts:9-11 | min and max check the untrimmed string, then the value is trimmed |
| Zod.RunTrimMinMax | apps/backend/src/validations/auth.validation.ts:9-11 | with trim first, the bounds apply to the trimmed string |
| Zod.RunMinMax | apps/backend/src/validations/auth.validation.ts:24-25 | both bounds are checked and the string is kept |
| Zod.RunMin | apps/backend/src/validators/message.validator.ts:5-6 | only the lower bound is checked |
| Zod.RunLowerTrim | apps/backend/src/validations/auth.validation.ts:17-18 | lowercase then trim, with no issue |
| Zod.StringField | apps/backend/src/validations/auth.validation.ts:5-11 | a non-string gives the type message; a string runs the steps |
| Zod.ObjectIdField | apps/backend/src/validations/message.validation.ts:5-9 | no issue iff a string the ObjectId predicate accepts; otherwise the type or 'Invalid ObjectId format' issue |
| Zod.ObjectIdParam | apps/backend/src/validations/chat.validation.ts:11-15 | a one-field ObjectId schema: accepted iff the field is an ObjectId, with that field's issues otherwise |
| Zod.ObjectIdElements | apps/backend/src/validations/chat.validation.ts:27 | no issue iff every element is an ObjectId; issues are indexed by element |
| Zod.ObjectIdArray | apps/backend/src/validations/chat.validation.ts:26-31 | no issue iff an array within the bounds of ObjectIds; a non-array, a short and a long array give their messages |
| Zod.Strings | apps/backend/src/validators/chat.validator.ts:6 | element-wise the string values, same length |
| Zod.StringElements | apps/backend/src/validators/chat.validator.ts:6 | no issue iff every element is a string |
| AuthValidation.NormaliseEmail | apps/backend/src/validations/auth.validation.ts:17-18 | never longer than the input |
| AuthValidation.NormaliseEmailIdempotent | apps/backend/src/validations/auth.validation.ts:13-18 | normalising twice equals normalising once |
| AuthValidation.RegisterSchema | apps/backend/src/validations/auth.validation.ts:3-27 | accepted iff the userName is a string of 3..30 characters before trimming, the e-mail a string and the password a string of 6..100; the value is the trimmed name, the normalised e-mail and the password; the missing and short cases report their messages |
| AuthValidation.PaddedShortUserNameAccepted | apps/backend/src/validations/auth.validation.ts:5-11 | '  ab  ' is accepted and stored as the 2-character name 'ab' |
| AuthValidation.PaddedTrim | apps/backend/src/validations/auth.validation.ts:11 | trim of '  ab  ' is 'ab' |
| AuthValidation.UserNameTrimFirst | apps/backend/src/validations/auth.validation.ts:5-11 | accepted iff the trimmed name has 3..30 characters, and the value is that trimmed name |
| AuthValidation.UserNameTrimFirstIsTrimmed | apps/backend/src/validations/auth.validation.ts:5-11 | the accepted name is a fixed point of trim |
| AuthValidation.LoginSchema | apps/backend/src/validations/auth.validation.ts:29-44 | accepted iff the e-mail is a string and the password a non-empty string; the e-mail is normalised as for register |
| MessageValidation.SendMessageSchema | apps/backend/src/validations/message.validation.ts:11-22 | accepted iff the content has 1..5000 characters before trimming and chat is an ObjectId; the value is the trimmed content |
| MessageValidation.BlankContentPassesSchema | apps/backend/src/validations/message.validation.ts:13-19 | content '   ' passes the schema as '' and the model then refuses it |
| MessageValidation.ContentTrimFirst | apps/backend/src/validations/message.validation.ts:13-19 | accepted iff the trimmed content has 1..5000 characters, and the value is that trimmed content |
| MessageValidation.ContentTrimFirstIsStored | apps/backend/src/validations/message.validation.ts:13-19 | content accepted by the trim-first schema is always stored by the model |
| MessageValidation.TrimmedContentIsStored | apps/backend/src/models/message.model.ts:15 | non-empty trimmed content is stored unchanged |
| MessageValidation.GetAllMessagesSchema | apps/backend/src/validations/message.validation.ts:24-28 | accepted iff query.chat is an ObjectId |
| MessageValidation.StatusField | apps/backend/src/validations/message.validation.ts:33-37 | absent is accepted as none; a string is accepted iff it is a status name; otherwise the enum message |
| MessageValidation.UpdateMessageSchema | apps/backend/src/validations/message.validation.ts:30-39 | accepted iff messageId is an ObjectId and the status is absent or a status name |
| MessageValidation.UpdateAcceptsEveryStatus | apps/backend/src/validations/message.validation.ts:33-37 | every status name is accepted |
| ChatValidation.CreateChatSchema | apps/backend/src/validations/chat.validation.ts:11-15 | accepted iff body.userId is an ObjectId |
| ChatValidation.CreateGroupChatSchema | apps/backend/src/validations/chat.validation.ts:17-33 | accepted iff the name has 3..50 characters before trimming and users is an array of 1..50 ObjectIds; the name is stored trimmed; every failing case reports its message |
| ChatValidation.BlankGroupNameAccepted | apps/backend/src/validations/chat.validation.ts:19-25 | the name '   ' is accepted and becomes '' |
| ChatValidation.GroupNameTrimFirst | apps/backend/src/validations/chat.validation.ts:19-25 | accepted iff the trimmed name has 3..50 characters |
| ChatValidation.BlankGroupNameRefused | apps/backend/src/validations/chat.validation.ts:19-25 | a name of spaces is refused once trim runs first |
| ChatValidation.GetChatByIdSchema | apps/backend/src/validations/chat.validation.ts:35-39 | accepted iff params.id is an ObjectId |
| ChatValidation.ParticipantsSchema | apps/backend/src/validations/chat.validation.ts:41-66 | accepted iff params.id is an ObjectId and userIds an array of 1..20 ObjectIds; each failure reports its message |
| ChatValidator.OptionalNonEmpty | apps/backend/src/validators/chat.validator.ts:5 | absent or a non-empty string is accepted; '' gives the min message |
| ChatValidator.StringArray | apps/backend/src/validators/chat.validator.ts:6 | no issue iff an array of at least the bound of strings |
| ChatValidator.OptionalBool | apps/backend/src/validators/chat.validator.ts:7 | absent or a boolean is accepted |
| ChatValidator.CreateChatSchema | apps/backend/src/validators/chat.validator.ts:3-9 | accepted iff the name is absent or non-empty, participants a non-empty string array, and isGroup absent or boolean |
| ChatValidator.UpdateChatSchema | apps/backend/src/validators/chat.validator.ts:11-18 | accepted iff chatId is a string and the name absent or non-empty, with zod's default min message |
| MessageValidator.SendMessageSchema | apps/backend/src/validators/message.validator.ts:3-8 | accepted iff chatId and content are non-empty strings |
| MessageValidator.OptionalString | apps/backend/src/validators/message.validator.ts:15-16 | absent or a string is accepted |
| MessageValidator.GetMessagesSchema | apps/backend/src/validators/message.validator.ts:10-18 | accepted iff chatId is a string and page and limit are absent or strings |
| SocketContext.OnOnline | apps/frontend/src/app/providers/SocketContext.tsx:77-81 | the id is appended iff absent, so the list stays duplicate-free |
| SocketContext.OnOffline | apps/frontend/src/app/providers/SocketContext.tsx:84-86 | the id is removed and every other id is kept |
| SocketContext.OnlineIdempotent | apps/frontend/src/app/providers/SocketContext.tsx:77-81 | online twice equals online once |
| SocketContext.OnlineThenOffline | apps/frontend/src/app/providers/SocketContext.tsx:77-86 | online then offline of an unlisted id restores the list |
| SocketContext.OfflineIsFilter | apps/frontend/src/app/providers/SocketContext.tsx:85 | offline is exactly the order-keeping filter |
| SocketContext.SocketProvider.constructor | apps/frontend/src/app/providers/SocketContext.tsx:21-24 | no socket and an empty list |
| SocketContext.SocketProvider.AuthEffect | apps/frontend/src/app/providers/SocketContext.tsx:29-50 | not authenticated: the service is disconnected and the provider's socket state is left as it was; authenticated: the service connects with the getMe token and the provider holds the service's socket; a failed getMe changes nothing |
| SocketContext.SocketProvider.Cleanup | apps/frontend/src/app/providers/SocketContext.tsx:52-57 | no socket, the service disconnected, an empty list |
| SocketContext.SocketProvider.OnPresenceList | apps/frontend/src/app/providers/SocketContext.tsx:72-74 | with a socket the list is replaced by the snapshot |
| SocketContext.SocketProvider.OnPresenceOnline | apps/frontend/src/app/providers/SocketContext.tsx:77-81 | with a socket the list becomes OnOnline of the old one |
| SocketContext.SocketProvider.OnPresenceOffline | apps/frontend/src/app/providers/SocketContext.tsx:84-86 | with a socket the list becomes OnOffline of the old one |
| SocketContext.SocketProvider.OnMessageReceive | apps/frontend/src/app/providers/SocketContext.tsx:65-69 | with a socket the chat list is refreshed once |
| ClientSockets.Socket.constructor | apps/frontend/src/services/socket.service.ts:42-49 | a new client socket carries the token and asks to connect once |
| ClientSockets.Socket.Connect | apps/frontend/src/services/socket.service.ts:37 | one more connection request |
| ClientSockets.Socket.Disconnect | apps/frontend/src/services/socket.service.ts:105 | disconnected |
| ClientSockets.Socket.Emit | apps/frontend/src/services/socket.service.ts:90 | the event is recorded |
| ClientSockets.Socket.SetAuth | apps/frontend/src/services/socket.service.ts:24-36 | the handshake token is replaced |
| ClientSockets.Socket.Established | apps/frontend/src/services/socket.service.ts:64 | the connection is up |
| ClientSockets.Socket.AttachInternalListeners | apps/frontend/src/services/socket.service.ts:60-83 | one more set of internal listeners |
| ClientSockets.SocketService.constructor | apps/frontend/src/services/socket.service.ts:5-11 | no socket, no token |
| ClientSockets.SocketService.Connect | apps/frontend/src/services/socket.service.ts:13-58 | the stored token becomes the argument; a token change while connected sets auth and reconnects the same socket; the same token returns it unchanged; a disconnected socket gets auth and reconnects; only without a socket is a new one made, carrying the token |
| ClientSockets.SocketService.Emit | apps/frontend/src/services/socket.service.ts:85-92 | true and sent iff connected; false and nothing sent otherwise |
| ClientSockets.SocketService.Disconnect | apps/frontend/src/services/socket.service.ts:102-109 | a no-op without a socket; otherwise the socket is closed and dropped and the listener flag cleared |
| ClientSockets.SocketService.IsConnected | apps/frontend/src/services/socket.service.ts:111-113 | true iff a socket exists and is connected |
| ClientSockets.RefreshKeepsSocket | apps/frontend/src/services/socket.service.ts:21-27 | a token refresh while connected keeps the same socket object with the new token |
| WebSocketClient.Pow2 | apps/frontend/src/services/websocket.ts:93 | at least 1 |
| WebSocketClient.DelayDoubles | apps/frontend/src/services/websocket.ts:93 | each attempt doubles the delay |
| WebSocketClient.DelayBounds | apps/frontend/src/services/websocket.ts:87-93 | a scheduled delay is one of 1000, 2000, 4000, 8000, 16000 |
| WebSocketClient.WebSocketService.constructor | apps/frontend/src/services/websocket.ts:5-8 | no socket and no attempts |
| WebSocketClient.WebSocketService.Connect | apps/frontend/src/services/websocket.ts:10-31 | with a token a fresh socket carrying it is installed; a failed token request is rethrown and changes nothing |
| WebSocketClient.WebSocketService.OnConnect | apps/frontend/src/services/websocket.ts:36-39 | attempts reset to 0 |
| WebSocketClient.WebSocketService.ScheduleReconnect | apps/frontend/src/services/websocket.ts:87-102 | at 5 attempts nothing is scheduled; otherwise one reconnect after Delay(attempts); the counter is unchanged |
| WebSocketClient.WebSocketService.ScheduleReconnectCounted | apps/frontend/src/services/websocket.ts:87-102 | the intended schedule: at the cap nothing; otherwise one reconnect after Delay(attempts) and the attempt counted |
| WebSocketClient.WebSocketService.OnDisconnect | apps/frontend/src/services/websocket.ts:41-51 | 'io server disconnect' schedules nothing; other reasons schedule a reconnect |
| WebSocketClient.WebSocketService.HandleAuthError | apps/frontend/src/services/websocket.ts:65-85 | at the cap nothing changes; otherwise attempts rise by one, the socket reconnects with a non-empty new token, an empty token or a missing socket does nothing more, and a failed refresh schedules a reconnect unless the raised count reached the cap |
| WebSocketClient.WebSocketService.OnConnectError | apps/frontend/src/services/websocket.ts:53-62 | a message containing 'Authentication' takes the auth path, any other schedules a reconnect |
| WebSocketClient.WebSocketService.Disconnect | apps/frontend/src/services/websocket.ts:104-110 | the socket is closed and dropped, attempts reset to 0 |
| WebSocketClient.WebSocketService.IsConnected | apps/frontend/src/services/websocket.ts:116-118 | true iff a socket exists and is connected |
| WebSocketClient.AuthErrorsStopAtCap | apps/frontend/src/services/websocket.ts:66-71 | six authentication errors in a row leave the counter at 5 |
| WebSocketClient.NetworkErrorsRetryForever | apps/frontend/src/services/websocket.ts:53-62 | n errors without "Authentication" schedule n reconnects, all after 1000 ms, and leave the counter at 0 |
| WebSocketClient.CountedErrorsStopAtCap | apps/frontend/src/services/websocket.ts:87-102 | with the counted schedule n errors schedule min(n, 5) reconnects, the k-th after Delay(k) |
| ApiClient.RequestConfig.constructor | apps/frontend/src/services/api/client.ts:8-11 | a request starts without the retry flag |
| ApiClient.RefreshNeverRefreshed | apps/frontend/src/services/api/client.ts:22-31 | a request whose URL contains /auth/refresh is never refreshed |
| ApiClient.OnError | apps/frontend/src/services/api/client.ts:18-47 | refresh happens iff status is 401, the request is not retried or skipped, and its URL names neither logout nor refresh; then the retry flag is set and the request is reissued, or the refresh error rejected; other errors are rejected unchanged |
| ApiClient.RetriedAtMostOnce | apps/frontend/src/services/api/client.ts:32 | a second 401 on a retried request is rejected, not refreshed again |
| AuthContext.StoredUser | apps/frontend/src/app/providers/AuthContext.tsx:33-40 | a user iff the key holds a parsed user |
| AuthContext.StoreUser | apps/frontend/src/app/providers/AuthContext.tsx:42-52 | null removes the key, a user writes it, and other keys are untouched |
| AuthContext.StoredUserOfStore | apps/frontend/src/app/providers/AuthContext.tsx:33-52 | reading back what was stored gives the user |
| AuthContext.AuthProvider.constructor | apps/frontend/src/app/providers/AuthContext.tsx:57-61 | the user is the stored user and isLoading holds iff the checked flag is absent |
| AuthContext.AuthProvider.CheckAuth | apps/frontend/src/app/providers/AuthContext.tsx:63-77 | user and stored user become the response user or null, the checked flag is 'true', isLoading ends false |
| AuthContext.AuthProvider.Mount | apps/frontend/src/app/providers/AuthContext.tsx:79-89 | checkAuth runs iff the flag or the stored user is missing; otherwise only isLoading becomes false |
| AuthContext.AuthProvider.SignedIn | apps/frontend/src/app/providers/AuthContext.tsx:91-103 | login and register store the response user and set the flag; a failed call changes nothing |
| AuthContext.AuthProvider.Logout | apps/frontend/src/app/providers/AuthContext.tsx:105-110 | the user is null, the stored user and the flag are removed; a failed call changes nothing |
| AuthContext.AuthProvider.IsAuthenticated | apps/frontend/src/app/providers/AuthContext.tsx:116 | true iff there is a user |
| AuthContext.LogoutThenReload | apps/frontend/src/app/providers/AuthContext.tsx:57-61 | after logout a reload starts with no user and loading |
| Helpers.FirstChars | apps/frontend/src/utils/helpers.ts:3-5 | at most one character per word, each the first character of a non-empty word |
| Helpers.FirstCharsConcat | apps/frontend/src/utils/helpers.ts:3-5 | the first characters of two word lists concatenate |
| Helpers.GetInitials | apps/frontend/src/utils/helpers.ts:1-8 | at most 2 characters, none a lowercase ASCII letter |
| Helpers.InitialsUpperCase | apps/frontend/src/utils/helpers.ts:6 | uppercasing the initials again changes nothing |
| Helpers.InitialsOfEmpty | apps/frontend/src/utils/helpers.ts:2-7 | the initials of '' are '' |
| Helpers.InitialsOfTwoWords | apps/frontend/src/utils/helpers.ts:2-7 | two space-free words give their first letters, uppercased |
| Helpers.InitialsIgnoreRepeatedSpaces | apps/frontend/src/utils/helpers.ts:3-4 | a doubled space between two words changes nothing |
| FormValidators.LoginForm | apps/frontend/src/utils/validators/index.ts:3-10 | no issue iff the e-mail is valid and the password has at least 6 characters; each failing field reports its message |
| FormValidators.RegisterForm | apps/frontend/src/utils/validators/index.ts:12-30 | no issue iff all four fields pass and the passwords match; the mismatch issue sits at confirmPassword iff they differ; each length check reports its own issue |
| FormValidators.RegisteredPasswordSignsIn | apps/frontend/src/utils/validators/index.ts:7-9 | a registration the form accepts passes the login form |
| PasswordChange.StrongOnOneLine | apps/frontend/src/features/auth/components/profile/PasswordChangeForm.tsx:54 | on a password with no line break the pattern holds iff it has a lowercase letter, an uppercase letter and a digit |
| PasswordChange.FirstFailure | apps/frontend/src/features/auth/components/profile/PasswordChangeForm.tsx:44-62 | none iff every check passes; otherwise the first failing check's message, in the source order |
| PasswordChange.PasswordChangeForm.constructor | apps/frontend/src/features/auth/components/profile/PasswordChangeForm.tsx:16-21 | not changing, all three fields '' |
| PasswordChange.PasswordChangeForm.StartChanging | apps/frontend/src/features/auth/components/profile/PasswordChangeForm.tsx:91 | changing mode, fields kept |
| PasswordChange.PasswordChangeForm.Type | apps/frontend/src/features/auth/components/profile/PasswordChangeForm.tsx:111-147 | the fields take the typed values |
| PasswordChange.PasswordChangeForm.HandleSubmit | apps/frontend/src/features/auth/components/profile/PasswordChangeForm.tsx:41-68 | the first failure is shown and nothing is sent; otherwise only current and new password are sent |
| PasswordChange.PasswordChangeForm.OnSuccess | apps/frontend/src/features/auth/components/profile/PasswordChangeForm.tsx:25-35 | all fields '' and editing off, with the success toast |
| PasswordChange.PasswordChangeForm.OnError | apps/frontend/src/features/auth/components/profile/PasswordChangeForm.tsx:36-38 | the server message, or the default message, is shown |
| PasswordChange.PasswordChangeForm.HandleCancel | apps/frontend/src/features/auth/components/profile/PasswordChangeForm.tsx:70-77 | all fields '' and editing off |
| PasswordChange.SubmitStrongPassword | apps/frontend/src/features/auth/components/profile/PasswordChangeForm.tsx:41-68 | a mismatched confirmation is refused, a matching one is sent |
| ProfileEditing.ProfileForm.constructor | apps/frontend/src/features/auth/components/profile/ProfileForm.tsx:17-22 | the fields start from the user, defaulting to '' |
| ProfileEditing.ProfileForm.StartEditing | apps/frontend/src/features/auth/components/profile/ProfileForm.tsx:73 | editing mode, fields kept |
| ProfileEditing.ProfileForm.Type | apps/frontend/src/features/auth/components/profile/ProfileForm.tsx:90-91 | the name takes the typed value; the e-mail (a disabled input, line 106) and the avatar (no input) are kept |
| ProfileEditing.ProfileForm.HandleSubmit | apps/frontend/src/features/auth/components/profile/ProfileForm.tsx:38-50 | a blank name shows 'Name is required' and sends nothing; otherwise name as typed and avatar are sent, never the e-mail |
| ProfileEditing.ProfileForm.OnSuccess | apps/frontend/src/features/auth/components/profile/ProfileForm.tsx:26-32 | editing off, with the success toast |
| ProfileEditing.ProfileForm.OnError | apps/frontend/src/features/auth/components/profile/ProfileForm.tsx:33-35 | the server's message or 'Failed to update profile' is shown; the form is unchanged |
| ProfileEditing.ProfileForm.HandleCancel | apps/frontend/src/features/auth/components/profile/ProfileForm.tsx:52-59 | name, e-mail and avatar are restored from the user, defaulting to '', and editing is off |
| ProfileEditing.EditThenCancel | apps/frontend/src/features/auth/components/profile/ProfileForm.tsx:38-59 | any non-blank typed name is sent with the user's avatar, the e-mail stays the user's while submitting, and cancel restores the user's name |
| UserSelection.FilteredOptions | apps/frontend/src/features/chat/components/UserSelector.tsx:29-37 | every offered user is a listed user not excluded whose name contains the query ignoring case, and every such user is offered |
| UserSelection.FilteredOptionsAppend | apps/frontend/src/features/chat/components/UserSelector.tsx:29-37 | a user appended to the list is offered after the others iff it is shown, so the offers keep the users' order |
| UserSelection.EmptyQueryShowsAll | apps/frontend/src/features/chat/components/UserSelector.tsx:32-34 | with no query every user not excluded is offered |
| UserSelection.UserSelector.constructor | apps/frontend/src/features/chat/components/UserSelector.tsx:22-23 | empty query, highlight 0 |
| UserSelection.UserSelector.SetQuery | apps/frontend/src/features/chat/components/UserSelector.tsx:39-42 | a new query resets the highlight to 0, keeping it inside the list |
| UserSelection.UserSelector.ToggleUser | apps/frontend/src/features/chat/components/UserSelector.tsx:45-50 | the selection becomes the toggle of the id |
| UserSelection.UserSelector.HandleKeyDown | apps/frontend/src/features/chat/components/UserSelector.tsx:52-76 | no effect on an empty list; down and up move the highlight without leaving the list; Enter toggles the highlighted user |
| UserSelection.EnterTwice | apps/frontend/src/features/chat/components/UserSelector.tsx:69-73 | Enter twice on an unselected user restores the selection |
| Lists.Toggle | apps/frontend/src/features/chat/components/UserSelector.tsx:45-50 | a present id is filtered out with the others kept in order; an absent id is appended last; no duplicates are made |
| Lists.ToggleTwice | apps/frontend/src/features/chat/components/UserSelector.tsx:45-50 | on a duplicate-free list, toggling twice gives the list back when the id was absent, and moves it last when present |
| Lists.AppendIfAbsent | apps/frontend/src/app/providers/SocketContext.tsx:79 | the result holds the old elements and the new one, without new duplicates |
| Lists.Without | apps/frontend/src/app/providers/SocketContext.tsx:85 | the element is removed and the others are kept with their counts |
| Lists.WithoutIsFilter | apps/frontend/src/features/chat/components/UserSelector.tsx:47 | removing an element is the order-keeping filter that drops it |
| Lists.Filter | apps/frontend/src/features/chat/components/UserSelector.tsx:30-36 | the kept elements, each from the input, and every kept input element |
| ForwardMessage.FilteredChats | apps/frontend/src/features/chat/components/ForwardMessageModal.tsx:40-46 | every offered chat is a listed chat other than the current one whose name contains the query ignoring case, and every such chat is offered |
| ForwardMessage.FilteredChatsAppend | apps/frontend/src/features/chat/components/ForwardMessageModal.tsx:40-46 | a chat appended to the list is offered after the others iff it is listed, so the offers keep the chats' order |
| ForwardMessage.CurrentChatExcluded | apps/frontend/src/features/chat/components/ForwardMessageModal.tsx:42 | the current chat is never offered |
| ForwardMessage.ForwardMessageModal.constructor | apps/frontend/src/features/chat/components/ForwardMessageModal.tsx:33-35 | nothing selected, empty query, not forwarding |
| ForwardMessage.ForwardMessageModal.SetQuery | apps/frontend/src/features/chat/components/ForwardMessageModal.tsx:97 | the query is replaced |
| ForwardMessage.ForwardMessageModal.ToggleChat | apps/frontend/src/features/chat/components/ForwardMessageModal.tsx:48-54 | the selection becomes the toggle of the chat id |
| ForwardMessage.ForwardMessageModal.Submit | apps/frontend/src/features/chat/components/ForwardMessageModal.tsx:55-61 | nothing happens with no selection; otherwise forwarding starts with the selection |
| ForwardMessage.ForwardMessageModal.ForwardSettled | apps/frontend/src/features/chat/components/ForwardMessageModal.tsx:60-65 | forwarding is off either way; only success clears and closes |
| ForwardMessage.ForwardMessageModal.HandleClose | apps/frontend/src/features/chat/components/ForwardMessageModal.tsx:68-72 | selection and query cleared, closed |
| Autocomplete.FilteredOptions | apps/frontend/src/components/ui/autocomplete.tsx:29-31 | every offered option is an option containing the input ignoring case, and every such option is offered |
| Autocomplete.FilteredOptionsAppend | apps/frontend/src/components/ui/autocomplete.tsx:29-31 | an option appended to the list is offered after the others iff it matches, so the offers keep the options' order |
| Autocomplete.AutocompleteInput.constructor | apps/frontend/src/components/ui/autocomplete.tsx:24-25 | closed, input from the value |
| Autocomplete.AutocompleteInput.DisplayExclusive | apps/frontend/src/components/ui/autocomplete.tsx:90-105 | the dropdown and the empty message never show together, and one shows when open with input |
| Autocomplete.AutocompleteInput.EmptyInputMatchesAll | apps/frontend/src/components/ui/autocomplete.tsx:29-31 | with no input every option matches |
| Autocomplete.AutocompleteInput.ValueChanged | apps/frontend/src/components/ui/autocomplete.tsx:44-46 | an external value overwrites the input |
| Autocomplete.AutocompleteInput.HandleInputChange | apps/frontend/src/components/ui/autocomplete.tsx:48-53 | the input is set, onChange is called, open iff the value is non-empty |
| Autocomplete.AutocompleteInput.HandleSelect | apps/frontend/src/components/ui/autocomplete.tsx:55-60 | the input is the option, onChange then onSelect are called, closed |
| Autocomplete.AutocompleteInput.HandleClear | apps/frontend/src/components/ui/autocomplete.tsx:62-67 | input '' and onChange(''); the stale onFocus that focus() fires (line 77) reopens the dropdown when there was text, so it then lists every option; the empty message never shows |
| Autocomplete.AutocompleteInput.HandleFocus | apps/frontend/src/components/ui/autocomplete.tsx:77 | focus opens iff there is input |
| Autocomplete.AutocompleteInput.ClickOutside | apps/frontend/src/components/ui/autocomplete.tsx:33-38 | closed, input kept |
| ChatInvitation.UserOptions | apps/frontend/src/features/chat/components/ChatList/ChatInvite.tsx:26 | the users' names, in order |
| ChatInvitation.FindByName | apps/frontend/src/features/chat/components/ChatList/ChatInvite.tsx:55 | the first user with exactly that name, or none iff no user has it |
| ChatInvitation.OptionsResolve | apps/frontend/src/features/chat/components/ChatList/ChatInvite.tsx:26-55 | every offered name selects a user of that name |
| ChatInvitation.ChatInvite.constructor | apps/frontend/src/features/chat/components/ChatList/ChatInvite.tsx:20-22 | closed, empty search, no selection |
| ChatInvitation.ChatInvite.HandleDialogChange | apps/frontend/src/features/chat/components/ChatList/ChatInvite.tsx:33-38 | closing resets search and selection; opening keeps them |
| ChatInvitation.ChatInvite.OnType | apps/frontend/src/features/chat/components/ChatList/ChatInvite.tsx:77-80 | typing sets the search and clears the selection |
| ChatInvitation.ChatInvite.HandleSelectUser | apps/frontend/src/features/chat/components/ChatList/ChatInvite.tsx:53-57 | the search is the name and the selection the first user of that name |
| ChatInvitation.ChatInvite.PickOption | apps/frontend/src/features/chat/components/ChatList/ChatInvite.tsx:77-81 | picking an option leaves the selection at the first user of that name |
| ChatInvitation.ChatInvite.HandleSubmit | apps/frontend/src/features/chat/components/ChatList/ChatInvite.tsx:47-51 | nothing without a selection; otherwise one create request with the selected user's id |
| ChatInvitation.ChatInvite.OnSuccess | apps/frontend/src/features/chat/components/ChatList/ChatInvite.tsx:40-45 | search and selection reset, closed |
| GroupCreation.SubmitOutcome | apps/frontend/src/features/chat/components/ChatList/CreateGroupChat.tsx:33-41 | a blank name is refused first, then fewer than 2 users; otherwise the name as typed and the selection are sent |
| GroupCreation.CreateGroupChat.constructor | apps/frontend/src/features/chat/components/ChatList/CreateGroupChat.tsx:20-22 | closed, empty name, no users |
| GroupCreation.CreateGroupChat.SetOpen | apps/frontend/src/features/chat/components/ChatList/CreateGroupChat.tsx:44 | only open changes; the draft is kept |
| GroupCreation.CreateGroupChat.SetGroupName | apps/frontend/src/features/chat/components/ChatList/CreateGroupChat.tsx:66 | the name is the typed value |
| GroupCreation.CreateGroupChat.SetSelectedUsers | apps/frontend/src/features/chat/components/ChatList/CreateGroupChat.tsx:72-74 | the selection is the selector's |
| GroupCreation.CreateGroupChat.HandleSubmit | apps/frontend/src/features/chat/components/ChatList/CreateGroupChat.tsx:33-41 | the outcome's error is shown and nothing sent, or the request is sent |
| GroupCreation.CreateGroupChat.OnSuccess | apps/frontend/src/features/chat/components/ChatList/CreateGroupChat.tsx:25-31 | closed, name '', no users |
| GroupCreation.SpacesNameRefused | apps/frontend/src/features/chat/components/ChatList/CreateGroupChat.tsx:36 | a name of spaces gives 'Group name is required' |
| GroupCreation.PaddedNameSentAsTyped | apps/frontend/src/features/chat/components/ChatList/CreateGroupChat.tsx:36-40 | a padded name is sent with its padding |
| ParticipantsDialogs.ParticipantIds | apps/frontend/src/features/chat/components/AddParticipantsModal.tsx:39-43 | a bare id maps to itself and a user to its id, in order and with the same length |
| ParticipantsDialogs.ParticipantsModal.constructor | apps/frontend/src/features/chat/hooks/useParticipantsModal.ts:4-5 | closed, nothing selected |
| ParticipantsDialogs.ParticipantsModal.SetSelectedUsers | apps/frontend/src/features/chat/hooks/useParticipantsModal.ts:5 | the selection is replaced |
| ParticipantsDialogs.ParticipantsModal.HandleSubmit | apps/frontend/src/features/chat/hooks/useParticipantsModal.ts:7-18 | the callback gets the selection iff it is non-empty |
| ParticipantsDialogs.ParticipantsModal.HandleOpenChange | apps/frontend/src/features/chat/hooks/useParticipantsModal.ts:20-25 | closing clears the selection; opening keeps it |
| ParticipantsDialogs.ParticipantsModal.CloseModal | apps/frontend/src/features/chat/hooks/useParticipantsModal.ts:27-30 | closed, nothing selected |
| ParticipantsDialogs.AddOptions | apps/frontend/src/features/chat/components/AddParticipantsModal.tsx:73-79 | only users who are not participants are offered, and every such user matching the query is |
| ParticipantsDialogs.AddParticipantsModal.constructor | apps/frontend/src/features/chat/components/AddParticipantsModal.tsx:27-43 | closed, nothing selected, the participant ids normalised |
| ParticipantsDialogs.AddParticipantsModal.SetOpen | apps/frontend/src/features/chat/components/AddParticipantsModal.tsx:58 | only open changes |
| ParticipantsDialogs.AddParticipantsModal.SetSelectedUsers | apps/frontend/src/features/chat/components/AddParticipantsModal.tsx:75 | the selection is replaced |
| ParticipantsDialogs.AddParticipantsModal.HandleSubmit | apps/frontend/src/features/chat/components/AddParticipantsModal.tsx:45-56 | nothing for an empty selection; otherwise chat id and selection are sent; an enabled button always sends (lines 89-91) |
| ParticipantsDialogs.AddParticipantsModal.OnSuccess | apps/frontend/src/features/chat/components/AddParticipantsModal.tsx:31-36 | closed, nothing selected |
| ParticipantsDialogs.AddParticipantsModal.OnError | apps/frontend/src/features/chat/hooks/useChats.ts:102-109 | the mutation is no longer pending while open, the selection and the sent requests are kept, so the button is enabled again iff something is selected |
| ParticipantsDialogs.RetryAfterFailedAdd | apps/frontend/src/features/chat/components/AddParticipantsModal.tsx:31-55 | after a failed add the same selection can be submitted again, sending the request a second time |
| ParticipantsDialogs.DeleteOptionsAsWritten | apps/frontend/src/features/chat/components/DeleteParticipantsModal.tsx:76-82 | every user matching the query is offered for removal, participant or not |
| ParticipantsDialogs.NonParticipantOfferedForRemoval | apps/frontend/src/features/chat/components/DeleteParticipantsModal.tsx:79 | a user outside the chat is offered for removal |
| ParticipantsDialogs.DeleteOptions | apps/frontend/src/features/chat/components/DeleteParticipantsModal.tsx:45-49 | only participants are offered, and every participant matching the query is |
| ParticipantsDialogs.EveryParticipantRemovable | apps/frontend/src/features/chat/components/DeleteParticipantsModal.tsx:79 | with no query every known participant is offered |
| ParticipantsDialogs.IntendedPickKeepsParticipants | apps/frontend/src/features/chat/components/DeleteParticipantsModal.tsx:45-49 | with the intended picker a selection of participants stays one after any click |
| ParticipantsDialogs.DeleteParticipantsModal.constructor | apps/frontend/src/features/chat/components/DeleteParticipantsModal.tsx:28-49 | closed, nothing selected, the participant ids normalised |
| ParticipantsDialogs.DeleteParticipantsModal.PickOption | apps/frontend/src/features/chat/components/DeleteParticipantsModal.tsx:76-82 | the i-th offered user's id is toggled, where every user matching the query is offered, participant or not |
| ParticipantsDialogs.DeleteParticipantsModal.HandleSubmit | apps/frontend/src/features/chat/components/DeleteParticipantsModal.tsx:51-67 | nothing for an empty selection; otherwise chat id and selection are sent as they are, and an enabled button always sends (line 94) |
| ParticipantsDialogs.DeleteParticipantsModal.HandleOpenChange | apps/frontend/src/features/chat/components/DeleteParticipantsModal.tsx:59 | delegated to the hook: closing clears the selection |
| ParticipantsDialogs.DeleteParticipantsModal.OnSuccess | apps/frontend/src/features/chat/components/DeleteParticipantsModal.tsx:37-43 | closeModal: closed, nothing selected |
| ParticipantsDialogs.OutsiderSentForRemoval | apps/frontend/src/features/chat/components/DeleteParticipantsModal.tsx:51-82 | the dialog as written sends the id of a user who is not in the chat |
| Text.Trim | apps/backend/src/validations/auth.validation.ts:11 | never longer, and no whitespace at either end |
| Text.TrimIdempotent | apps/backend/src/validations/auth.validation.ts:11 | trimming twice equals trimming once |
| Text.TrimEmptyIffBlank | apps/frontend/src/features/auth/components/profile/ProfileForm.tsx:41 | trim gives '' iff the string is all whitespace |
| Text.ToLower | apps/backend/src/validations/auth.validation.ts:17 | same length, ASCII uppercase letters lowered, others kept |
| Text.ToUpper | apps/frontend/src/utils/helpers.ts:6 | same length, ASCII lowercase letters raised, others kept |
| Text.ToUpperIdempotent | apps/frontend/src/utils/helpers.ts:6 | an uppercased string has no lowercase letter and is a fixed point |
| Text.Split | apps/frontend/src/utils/helpers.ts:3 | at least one piece, none containing the separator |
| Text.JoinSplit | apps/frontend/src/utils/helpers.ts:3-5 | joining the pieces with the separator gives the string back |
| Text.ContainsIgnoreCaseEmptyQuery | apps/frontend/src/features/chat/components/UserSelector.tsx:32-34 | every string contains the empty query |

## Left out

- I/O and transport are not modelled. That covers HTTP, Socket.IO and `localStorage`
  exceptions. Emits are deliveries appended to an outbox, with recipients fixed at emit time.
- Each handler runs as one atomic step. Interleavings across `await` points are not modelled.
- Timers are not modelled. `setTimeout` becomes the list of scheduled delays.
- socket.io-client's own reconnection options belong to the library and are not modelled.
- JWT signing and verification, and bcrypt password hashing, are left out. Verification is an
  abstract function and passwords are stored as given.
- `ObjectId.isValid`, the e-mail format and Mongoose's ObjectId cast are `string -> bool`
  parameters, not implemented. The cast test decides:
  - the failure path of `ChatController.CreateChat`, `ChatController.GetChatById`,
    `MessageController.SendMessage` (through `Models.CreateCastMessage`),
    `SocketServer.ChatServer.SendMessage` and `SocketServer.ChatServer.ReadChat`;
  - that the socket handlers' rejections stay unhandled, so nothing is emitted;
  - that the REST handlers' rejections go to `asyncHandler`, where the error middleware that
    picks the status is not part of this model.
- ChatController.CreateGroupChat: the handler looks its users up by name before casting, and
  its route is not mounted. Cast failures of its ids are not modelled.
- ChatController.CreateChat: a `userId` that is not a string (say a number) is not modelled.
  `userId` is a string or absent.
- Zod.TypeMessage: a wrong type gives the bare texts `Expected string`, `Expected boolean` and
  `Expected array`, and a missing value gives `Required`. zod 3 adds `, received <type>` to
  the wrong-type texts. zod 4 words both kinds differently (`Invalid input: expected string,
  received undefined`). The zod version is not part of this model, so only the schemas' own
  messages and the presence of a type issue at a path match the source exactly.
- Mongoose `populate`, projections, the query engine and indexes are not modelled.
  `Formatters.Populate` only looks users up by id.
- The order Mongo gives chats with equal `updatedAt` is unspecified. The model's sort keeps
  ties stable.
- `toLowerCase` and `toUpperCase` are modelled for ASCII letters only.
- String lengths count Dafny characters, not JavaScript UTF-16 code units.
- `Text.IsWhitespace` covers JavaScript's whitespace set but no other Unicode categories.
- Shaping zod errors into HTTP responses is not modelled. Issues are a set, with no order.
- `generateRandomColor` is floating-point hashing and is not modelled.
- React rendering, routing, react-query caching (`setQueryData`, `invalidateQueries`) and the
  axios service wrappers are I/O and caching. A chat-list invalidation is a counter.
- The response interceptor's success handler is the identity, so it has no member.
- The users and chats lists the components read from queries are treated as constant while a
  dialog is open.
- `e.preventDefault()` is a DOM effect and is not modelled.
- Button `disabled` states are predicates on the dialog. Submitting through a disabled button is
  not a separate path.
- The spinners shown while a request is pending are not modelled.
- AuthContext.AuthProvider.CheckAuth: the `isLoading = true` set at the start of the call is not
  visible in the model, because the call is atomic.
- Helpers.GetInitials: the contract bounds the length and the case rather than stating the full
  split/map/join result. `Helpers.InitialsOfTwoWords` and `Helpers.FirstCharsConcat` state
  the full result for the common shapes.
- Store.FreshId: it models ObjectId generation as any string not yet in use.

## Findings

| source | as written | input that shows it | evidently intended | confidence | as-written member | corrected member |
|---|---|---|---|---|---|---|
| apps/backend/src/validations/auth.validation.ts:5-11 | `.min(3).max(30).trim()` checks the length before trimming | the schema accepts userName `"  ab  "` and yields `"ab"`, 2 characters; no route mounts this schema (auth.route.ts:13), `validate` discards the parsed value, and `register` reads `name` | the bounds apply to the trimmed name | not executed | AuthValidation.PaddedShortUserNameAccepted | AuthValidation.UserNameTrimFirst |
| apps/backend/src/validations/message.validation.ts:13-19 | `.min(1).max(5000).trim()` checks the length before trimming | the schema accepts content `"   "` and yields `""`, which the message model refuses; no route mounts this schema (message.route.ts:11) | blank content is refused by the schema | not executed | MessageValidation.BlankContentPassesSchema | MessageValidation.ContentTrimFirst |
| apps/backend/src/validations/chat.validation.ts:19-25 | `.min(3).max(50).trim()` checks the length before trimming | the schema accepts group name `"   "` and yields `""`; no route mounts this schema and `createGroupChat` has no route | the bounds apply to the trimmed name | not executed | ChatValidation.BlankGroupNameAccepted | ChatValidation.GroupNameTrimFirst |
| apps/frontend/src/features/chat/components/DeleteParticipantsModal.tsx:79 | passes `includeUserIds`, which `UserSelector` does not declare (UserSelector.tsx:7-13), so the picker filters nothing | users ann (a participant, id 1) and bob (not a participant, id 2): bob is offered for removal | only the chat's participants are offered | not executed | ParticipantsDialogs.OutsiderSentForRemoval | ParticipantsDialogs.IntendedPickKeepsParticipants |
| apps/frontend/src/services/websocket.ts:53-62 | a `connect_error` without "Authentication" calls `scheduleReconnect`, which never raises the counter | the connection times out again and again: every retry is scheduled after 1000 ms and the cap of 5 is never reached | every retry counts towards the cap, with doubling delays | not executed | WebSocketClient.NetworkErrorsRetryForever | WebSocketClient.CountedErrorsStopAtCap |
