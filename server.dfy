/** The socket server: live connections with the rooms they joined, the presence map
    `onlineUsers` (user id to socket id), the database, and the log of emitted events. Every
    handler runs to completion before the next event is handled. */
module SocketServer {
  import opened Wrappers
  import opened Models
  import opened Events
  import Jwt
  import SocketAuth
  import Typing
  import JsMap
  import Lists
  import Store
  import ReadState

  /** A live connection: the user id the handshake attached and the rooms it has joined. */
  datatype Socket = Socket(userId: Option<string>, rooms: set<string>)

  /** `if (socket.userId)`: an id is attached and it is not the empty string. */
  predicate HasUser(s: Socket) { s.userId.Some? && s.userId.value != "" }

  /** `socket.join(room)`. */
  function Joined(s: Socket, room: string): (r: Socket)
    ensures r.userId == s.userId
    ensures room in r.rooms && r.rooms - {room} == s.rooms - {room}
  {
    s.(rooms := s.rooms + {room})
  }

  /** `socket.leave(room)`. */
  function Left(s: Socket, room: string): (r: Socket)
    ensures r.userId == s.userId
    ensures room !in r.rooms && r.rooms + {room} == s.rooms + {room}
  {
    s.(rooms := s.rooms - {room})
  }

  lemma JoinIdempotent(s: Socket, room: string)
    ensures Joined(Joined(s, room), room) == Joined(s, room)
  {
  }

  lemma LeaveUnjoined(s: Socket, room: string)
    requires room !in s.rooms
    ensures Left(s, room) == s
  {
  }

  lemma JoinThenLeave(s: Socket, room: string)
    requires room !in s.rooms
    ensures Left(Joined(s, room), room) == s
  {
  }

  /** The sockets `io.to(room)` reaches. */
  function RoomMembers(sockets: map<ConnId, Socket>, room: string): (r: set<ConnId>)
    ensures forall c :: c in r <==> c in sockets && room in sockets[c].rooms
  {
    set c | c in sockets && room in sockets[c].rooms
  }

  /** Every entry of the presence map names a live socket that belongs to that user. */
  ghost predicate PresenceConsistent(online: seq<(string, ConnId)>, sockets: map<ConnId, Socket>) {
    forall u :: JsMap.Get(online, u).Some? ==>
      && u != ""
      && JsMap.Get(online, u).value in sockets
      && sockets[JsMap.Get(online, u).value].userId == Some(u)
  }

  /** Recording a user's new socket keeps the presence map consistent and changes only
      that user's entry. */
  lemma PresenceAfterConnect(online: seq<(string, ConnId)>, sockets: map<ConnId, Socket>, id: ConnId, u: string)
    requires PresenceConsistent(online, sockets)
    requires id in sockets && sockets[id].userId == Some(u) && u != ""
    ensures PresenceConsistent(JsMap.Set(online, u, id), sockets)
    ensures forall v :: JsMap.Get(JsMap.Set(online, u, id), v) == if v == u then Some(id) else JsMap.Get(online, v)
  {
    forall v ensures JsMap.Get(JsMap.Set(online, u, id), v) == if v == u then Some(id) else JsMap.Get(online, v) {
      JsMap.GetSet(online, u, id, v);
    }
  }

  /** Deleting the entry of a closing socket's user keeps the presence map consistent with
      the remaining sockets and changes only that user's entry. */
  lemma PresenceAfterDisconnect(online: seq<(string, ConnId)>, sockets: map<ConnId, Socket>, id: ConnId, u: string)
    requires PresenceConsistent(online, sockets) && JsMap.DistinctKeys(online)
    requires id in sockets && sockets[id].userId == Some(u)
    ensures PresenceConsistent(JsMap.Delete(online, u), sockets - {id})
    ensures forall v :: JsMap.Get(JsMap.Delete(online, u), v) == if v == u then None else JsMap.Get(online, v)
  {
    var m := JsMap.Delete(online, u);
    forall v ensures JsMap.Get(m, v) == if v == u then None else JsMap.Get(online, v) {
      JsMap.GetDelete(online, u, v);
    }
    RemainingConsistent(online, m, sockets, id, u);
  }

  lemma RemainingConsistent(online: seq<(string, ConnId)>, m: seq<(string, ConnId)>,
                            sockets: map<ConnId, Socket>, id: ConnId, u: string)
    requires PresenceConsistent(online, sockets)
    requires id in sockets && sockets[id].userId == Some(u)
    requires forall v :: JsMap.Get(m, v) == if v == u then None else JsMap.Get(online, v)
    ensures PresenceConsistent(m, sockets - {id})
  {
    forall v | JsMap.Get(m, v).Some?
      ensures v != "" && JsMap.Get(m, v).value in sockets - {id}
      ensures (sockets - {id})[JsMap.Get(m, v).value].userId == Some(v)
    {
      assert v != u && JsMap.Get(m, v) == JsMap.Get(online, v);
    }
  }

  /** The fields the `message:send` handler hands to `Message.create`. */
  function SendFields(userId: string, data: SendPayload): (f: MessageFields)
    ensures f.sender == Some(userId) && f.chat == Some(data.chatId) && f.content == Some(data.content)
    ensures f.status == Some(Sent) && f.isForwarded == Some(data.isForworded.GetOr(false))
  {
    MessageFields(Some(userId), Some(data.content), Some(data.chatId), Some(Sent),
                  Some(data.isForworded.GetOr(false)))
  }

  /** The `message:receive` payload for a stored message and its sender's document. The
      sender is populated with `name avatar` only, so `userName` is not loaded and the view's
      `name` is always undefined; the stored message has no `isForwarded`, so neither has
      the view. */
  function View(m: Message, sender: User): (v: MessageView)
    ensures v.id == m.id && v.chat == m.chat && v.content == m.content && v.status == m.status
    ensures v.timestamp == m.createdAt && v.isForwarded.None?
    ensures v.sender == SenderView(sender.id, None, sender.avatar)
  {
    MessageView(m.id, SenderView(sender.id, None, sender.avatar), m.chat, m.content,
                m.status, m.createdAt, None)
  }

  class ChatServer {
    const db: Store.Db
    var sockets: map<ConnId, Socket>
    var onlineUsers: seq<(string, ConnId)>
    var outbox: seq<Delivery>

    ghost predicate Valid()
      reads this, db
    {
      && db.Valid()
      && JsMap.DistinctKeys(onlineUsers)
      && PresenceConsistent(onlineUsers, sockets)
    }

    /** Every live socket passed the handshake, so it carries a user id. */
    ghost predicate AllAuthenticated()
      reads this
    {
      forall c :: c in sockets ==> HasUser(sockets[c])
    }

    constructor (db: Store.Db)
      requires db.Valid()
      ensures Valid() && AllAuthenticated()
      ensures this.db == db && sockets == map[] && onlineUsers == [] && outbox == []
    {
      this.db := db;
      sockets, onlineUsers, outbox := map[], [], [];
    }

    /** `getOnlineUsers`: the keys of the presence map, in insertion order, each once. */
    function GetOnlineUsers(): (r: seq<string>)
      reads this
      requires JsMap.DistinctKeys(onlineUsers)
      ensures Lists.Distinct(r)
      ensures forall u :: u in r <==> JsMap.Get(onlineUsers, u).Some?
    {
      JsMap.KeysDistinct(onlineUsers);
      JsMap.Keys(onlineUsers)
    }

    /** A new connection: the handshake middleware decides; an accepted socket is live, gets
        its chat, message, presence and typing handlers in that order, and of those only the
        presence registration does something at once: it sends this socket the presence list
        as it stood before, then records the user and tells everyone it is online. */
    method Connect(id: ConnId, token: Option<string>, verify: Jwt.Verifier) returns (r: Result<string, string>)
      requires Valid() && id !in sockets
      modifies this
      ensures Valid()
      ensures AllAuthenticated() <== old(AllAuthenticated())
      ensures r == SocketAuth.Authenticate(token, verify)
      ensures r.Err? ==> sockets == old(sockets) && onlineUsers == old(onlineUsers) && outbox == old(outbox)
      ensures r.Ok? ==>
        && sockets == old(sockets)[id := Socket(Some(r.value), {})]
        && onlineUsers == JsMap.Set(old(onlineUsers), r.value, id)
        && outbox == old(outbox) + [Delivery({id}, PresenceList(JsMap.Keys(old(onlineUsers)))),
                                    Delivery(sockets.Keys, PresenceOnline(r.value))]
    {
      r := SocketAuth.Authenticate(token, verify);
      if r.Err? {
        return;
      }
      sockets := sockets[id := Socket(Some(r.value), {})];
      assert PresenceConsistent(onlineUsers, sockets) by {
        forall u | JsMap.Get(onlineUsers, u).Some?
          ensures JsMap.Get(onlineUsers, u).value in sockets
          ensures sockets[JsMap.Get(onlineUsers, u).value].userId == Some(u)
        {
          assert JsMap.Get(onlineUsers, u).value in old(sockets);
        }
      }
      RegisterPresence(id);
    }

    /** `registerPresenceHandlers`: the snapshot goes to the new socket first, then
        `handleUserConnect`. */
    method RegisterPresence(id: ConnId)
      requires Valid() && id in sockets
      modifies this`onlineUsers, this`outbox
      ensures Valid()
      ensures HasUser(sockets[id]) ==>
        && onlineUsers == JsMap.Set(old(onlineUsers), sockets[id].userId.value, id)
        && outbox == old(outbox) + [Delivery({id}, PresenceList(JsMap.Keys(old(onlineUsers)))),
                                    Delivery(sockets.Keys, PresenceOnline(sockets[id].userId.value))]
      ensures !HasUser(sockets[id]) ==>
        && onlineUsers == old(onlineUsers)
        && outbox == old(outbox) + [Delivery({id}, PresenceList(JsMap.Keys(old(onlineUsers))))]
    {
      var snapshot := Delivery({id}, PresenceList(GetOnlineUsers()));
      assert GetOnlineUsers() == JsMap.Keys(onlineUsers);
      outbox := outbox + [snapshot];
      HandleUserConnect(id);
      assert outbox == old(outbox) + [snapshot] + outbox[|old(outbox)| + 1..];
    }

    /** `handleUserConnect`: a socket with a user id becomes that user's entry, replacing any
        earlier socket of the same user, and every socket hears `presence:online`. Other
        users' entries are untouched. */
    method HandleUserConnect(id: ConnId)
      requires Valid() && id in sockets
      modifies this`onlineUsers, this`outbox
      ensures Valid()
      ensures HasUser(sockets[id]) ==>
        && onlineUsers == JsMap.Set(old(onlineUsers), sockets[id].userId.value, id)
        && JsMap.Get(onlineUsers, sockets[id].userId.value) == Some(id)
        && outbox == old(outbox) + [Delivery(sockets.Keys, PresenceOnline(sockets[id].userId.value))]
      ensures HasUser(sockets[id]) ==> forall v :: v != sockets[id].userId.value ==>
        JsMap.Get(onlineUsers, v) == JsMap.Get(old(onlineUsers), v)
      ensures !HasUser(sockets[id]) ==> onlineUsers == old(onlineUsers) && outbox == old(outbox)
    {
      var s := sockets[id];
      if HasUser(s) {
        var u := s.userId.value;
        PresenceAfterConnect(onlineUsers, sockets, id, u);
        onlineUsers := JsMap.Set(onlineUsers, u, id);
        outbox := outbox + [Delivery(sockets.Keys, PresenceOnline(u))];
      }
    }

    /** A socket goes away: socket.io drops it from its rooms and the live set, then the
        `disconnect` handler (`handleUserDisconnect`) deletes the user's entry, whichever
        socket it named, and tells the remaining sockets the user is offline. */
    method Disconnect(id: ConnId)
      requires Valid() && id in sockets
      modifies this
      ensures Valid()
      ensures AllAuthenticated() <== old(AllAuthenticated())
      ensures sockets == old(sockets) - {id}
      ensures HasUser(old(sockets)[id]) ==>
        && onlineUsers == JsMap.Delete(old(onlineUsers), old(sockets)[id].userId.value)
        && outbox == old(outbox) + [Delivery(sockets.Keys, PresenceOffline(old(sockets)[id].userId.value))]
      ensures HasUser(old(sockets)[id]) ==> forall v :: v != old(sockets)[id].userId.value ==>
        JsMap.Get(onlineUsers, v) == JsMap.Get(old(onlineUsers), v)
      ensures !HasUser(old(sockets)[id]) ==> onlineUsers == old(onlineUsers) && outbox == old(outbox)
    {
      var s := sockets[id];
      sockets := sockets - {id};
      if HasUser(s) {
        var u := s.userId.value;
        PresenceAfterDisconnect(onlineUsers, old(sockets), id, u);
        onlineUsers := JsMap.Delete(onlineUsers, u);
        outbox := outbox + [Delivery(sockets.Keys, PresenceOffline(u))];
      } else {
        assert PresenceConsistent(onlineUsers, sockets) by {
          forall v | JsMap.Get(onlineUsers, v).Some?
            ensures JsMap.Get(onlineUsers, v).value in sockets
          {
            assert JsMap.Get(onlineUsers, v).value != id;
          }
        }
      }
    }

    /** `chat:join`: only this socket's rooms change. */
    method Join(id: ConnId, room: string)
      requires Valid() && id in sockets
      modifies this`sockets
      ensures Valid()
      ensures sockets == old(sockets)[id := Joined(old(sockets)[id], room)]
      ensures id in RoomMembers(sockets, room)
      ensures forall c :: c in sockets && c != id ==> sockets[c] == old(sockets)[c]
    {
      sockets := sockets[id := Joined(sockets[id], room)];
    }

    /** `chat:leave`: only this socket's rooms change. */
    method Leave(id: ConnId, room: string)
      requires Valid() && id in sockets
      modifies this`sockets
      ensures Valid()
      ensures sockets == old(sockets)[id := Left(old(sockets)[id], room)]
      ensures id !in RoomMembers(sockets, room)
      ensures forall c :: c in sockets && c != id ==> sockets[c] == old(sockets)[c]
    {
      sockets := sockets[id := Left(sockets[id], room)];
    }

    /** `message:send`: without a user nothing happens. Otherwise the message is created with
        status `sent`; if validation throws (blank content, or a chat id that `castable`,
        Mongoose's ObjectId cast test, refuses), nothing is stored or sent. The
        chat's latest message then becomes the new one, and the room hears
        `message:receive`, unless the sender has no user document, in which case reading
        `sender._id` throws and nothing is emitted. */
    method SendMessage(id: ConnId, data: SendPayload, now: nat, castable: string -> bool)
      requires Valid() && id in sockets
      modifies this`outbox, db
      ensures Valid()
      ensures db.users == old(db.users)
      ensures !HasUser(sockets[id]) ==>
        db.messages == old(db.messages) && db.chats == old(db.chats) && outbox == old(outbox)
      ensures HasUser(sockets[id]) ==>
        var created := CreateCastMessage(SendFields(sockets[id].userId.value, data),
                                         Store.FreshId(Store.MessageIds(old(db.messages))), now, castable);
        && (created.Err? ==>
              db.messages == old(db.messages) && db.chats == old(db.chats) && outbox == old(outbox))
        && (created.Ok? ==>
              && db.messages == old(db.messages) + [created.value]
              && created.value.sender == sockets[id].userId.value
              && created.value.chat == data.chatId
              && castable(data.chatId) && castable(sockets[id].userId.value)
              && created.value.status == Sent
              && db.chats == Store.SetLatest(old(db.chats), data.chatId, created.value.id, now)
              && var sender := Store.FindUser(db.users, sockets[id].userId.value);
                 outbox == old(outbox) +
                   if sender.None? then []
                   else [Delivery(RoomMembers(sockets, data.chatId),
                                  MessageReceive(View(created.value, sender.value), data.chatId))])
    {
      var s := sockets[id];
      if !HasUser(s) {
        return;
      }
      var u := s.userId.value;
      var messageId := Store.FreshId(Store.MessageIds(db.messages));
      var created := CreateCastMessage(SendFields(u, data), messageId, now, castable);
      if created.Err? {
        return;
      }
      var m := created.value;
      assert m.sender == u && m.chat == data.chatId && m.status == Sent;
      StoreMessage(m, data.chatId, now);
      Announce(m, u, data.chatId);
    }

    /** `Message.create` and `Chat.findByIdAndUpdate(chatId, { latestMessage })`. */
    method StoreMessage(m: Message, chatId: string, now: nat)
      requires Valid() && m.id !in Store.MessageIds(db.messages)
      modifies db
      ensures Valid()
      ensures db.messages == old(db.messages) + [m]
      ensures db.chats == Store.SetLatest(old(db.chats), chatId, m.id, now)
      ensures db.users == old(db.users)
    {
      db.InsertMessage(m);
      db.UpdateLatestMessage(chatId, m.id, now);
    }

    /** `io.to(chatId).emit('message:receive', …)` once the sender is populated; a sender
        whose document is gone stops the handler before the emit. */
    method Announce(m: Message, u: string, chatId: string)
      modifies this`outbox
      ensures var sender := Store.FindUser(db.users, u);
        outbox == old(outbox) +
          if sender.None? then []
          else [Delivery(RoomMembers(sockets, chatId), MessageReceive(View(m, sender.value), chatId))]
    {
      var sender := Store.FindUser(db.users, u);
      if sender.Some? {
        outbox := outbox + [Delivery(RoomMembers(sockets, chatId),
                                     MessageReceive(View(m, sender.value), chatId))];
      }
    }

    /** `chat:read`: without a user nothing happens. The `updateMany` filter casts the chat
        id and the reader's id to ObjectIds; if either does not cast the query rejects and
        nothing changes or is emitted. Otherwise every message of the chat that someone else
        sent and that is not yet read becomes read, and the room hears `chat:read` with the
        reader's id. */
    method ReadChat(id: ConnId, chatId: string, now: nat, castable: string -> bool)
      requires Valid() && id in sockets
      modifies this`outbox, db
      ensures Valid()
      ensures db.users == old(db.users) && db.chats == old(db.chats)
      ensures !HasUser(sockets[id]) ==> db.messages == old(db.messages) && outbox == old(outbox)
      ensures HasUser(sockets[id]) && !(castable(chatId) && castable(sockets[id].userId.value)) ==>
        db.messages == old(db.messages) && outbox == old(outbox)
      ensures HasUser(sockets[id]) && castable(chatId) && castable(sockets[id].userId.value) ==>
        && db.messages == ReadState.MarkRead(old(db.messages), chatId, sockets[id].userId.value, now)
        && outbox == old(outbox) + [Delivery(RoomMembers(sockets, chatId), ChatRead(chatId, sockets[id].userId.value))]
    {
      var s := sockets[id];
      if !HasUser(s) {
        return;
      }
      var u := s.userId.value;
      if !(castable(chatId) && castable(u)) {
        return;
      }
      db.MarkChatRead(chatId, u, now);
      outbox := outbox + [Delivery(RoomMembers(sockets, chatId), ChatRead(chatId, u))];
    }

    /** `typing:start` and `typing:stop`: relayed to every other socket; no state changes. */
    method RelayTyping(id: ConnId, kind: Typing.TypingKind, data: TypingPayload)
      requires Valid() && id in sockets
      modifies this`outbox
      ensures Valid()
      ensures outbox == old(outbox) + [Typing.Relay(id, sockets.Keys, kind, data)]
    {
      outbox := outbox + [Typing.Relay(id, sockets.Keys, kind, data)];
    }
  }

  /** Two tabs of one user, then one tab closes: the presence entry is gone although the
      user's other socket is still connected, and everyone was told the user is offline. */
  method TwoTabsThenOneCloses() returns (online: seq<string>, live: set<ConnId>, lastEvent: ServerEvent)
    ensures "alice" !in online
    ensures live == {"tab2"}
    ensures lastEvent == PresenceOffline("alice")
  {
    var server := ConnectTwoTabs();
    server.Disconnect("tab1");
    assert server.onlineUsers == [];
    assert server.sockets == map["tab2" := Socket(Some("alice"), {})];
    online := server.GetOnlineUsers();
    live := set c | c in server.sockets && server.sockets[c].userId == Some("alice");
    lastEvent := server.outbox[|server.outbox| - 1].event;
  }

  /** The same user connects from two tabs: the second socket replaces the first in the
      presence map. */
  method ConnectTwoTabs() returns (server: ChatServer)
    ensures fresh(server) && server.Valid()
    ensures server.onlineUsers == [("alice", "tab2")]
    ensures server.sockets == map["tab1" := Socket(Some("alice"), {}), "tab2" := Socket(Some("alice"), {})]
  {
    var db := new Store.Db();
    server := new ChatServer(db);
    var verify: Jwt.Verifier := _ => Jwt.Verified(Jwt.ClaimsPayload(Some("alice")));
    assert SocketAuth.Authenticate(Some("token"), verify) == Ok("alice");
    var r1 := server.Connect("tab1", Some("token"), verify);
    assert server.onlineUsers == [("alice", "tab1")];
    var r2 := server.Connect("tab2", Some("token"), verify);
  }
}
