/** The chat endpoints: find-or-create of one-to-one and group chats, the current user's
    chat list, and one chat by id. */
module ChatController {
  import opened Wrappers
  import opened Models
  import Text
  import Store
  import Formatters

  /** `participants: { $all: xs }`. */
  predicate ContainsAll(ps: seq<string>, xs: seq<string>) {
    forall x :: x in xs ==> x in ps
  }

  /** The `createChat` query: a one-to-one chat that has both users among its participants. */
  predicate IsDirectBetween(c: Chat, a: string, b: string) {
    !c.isGroupChat && a in c.participants && b in c.participants
  }

  /** The `createGroupChat` query, given the name as the `trim` setter of `chatName` casts
      it for the comparison. */
  predicate IsSameGroup(c: Chat, chatName: string, all: seq<string>) {
    c.isGroupChat && c.chatName == Some(chatName) && ContainsAll(c.participants, all)
  }

  /** `Chat.findOne` for a one-to-one chat between `a` and `b`: the first such chat. */
  function FindDirect(cs: seq<Chat>, a: string, b: string): (r: Option<nat>)
    ensures r.None? <==> forall i :: 0 <= i < |cs| ==> !IsDirectBetween(cs[i], a, b)
    ensures r.Some? ==> r.value < |cs| && IsDirectBetween(cs[r.value], a, b)
    ensures r.Some? ==> forall j :: 0 <= j < r.value ==> !IsDirectBetween(cs[j], a, b)
  {
    if cs == [] then None
    else if IsDirectBetween(cs[0], a, b) then Some(0)
    else
      assert forall i :: 1 <= i < |cs| ==> cs[i] == cs[1..][i - 1];
      match FindDirect(cs[1..], a, b)
      case None => None
      case Some(k) => Some(k + 1)
  }

  /** `Chat.findOne` for a group named `chatName` containing all of `all`. */
  function FindGroup(cs: seq<Chat>, chatName: string, all: seq<string>): (r: Option<nat>)
    ensures r.None? <==> forall i :: 0 <= i < |cs| ==> !IsSameGroup(cs[i], chatName, all)
    ensures r.Some? ==> r.value < |cs| && IsSameGroup(cs[r.value], chatName, all)
    ensures r.Some? ==> forall j :: 0 <= j < r.value ==> !IsSameGroup(cs[j], chatName, all)
  {
    if cs == [] then None
    else if IsSameGroup(cs[0], chatName, all) then Some(0)
    else
      match FindGroup(cs[1..], chatName, all)
      case None =>
        assert forall i :: 1 <= i < |cs| ==> cs[i] == cs[1..][i - 1];
        None
      case Some(k) =>
        assert cs[k + 1] == cs[1..][k];
        assert forall j :: 1 <= j <= k ==> cs[j] == cs[1..][j - 1];
        Some(k + 1)
  }

  /** How many one-to-one chats the two users share. */
  function CountDirect(cs: seq<Chat>, a: string, b: string): (n: nat)
    ensures n == 0 <==> forall i :: 0 <= i < |cs| ==> !IsDirectBetween(cs[i], a, b)
  {
    if cs == [] then 0
    else
      assert forall i :: 1 <= i < |cs| ==> cs[i] == cs[1..][i - 1];
      (if IsDirectBetween(cs[0], a, b) then 1 else 0) + CountDirect(cs[1..], a, b)
  }

  lemma {:induction false} CountDirectAppend(cs: seq<Chat>, c: Chat, a: string, b: string)
    ensures CountDirect(cs + [c], a, b) == CountDirect(cs, a, b) + if IsDirectBetween(c, a, b) then 1 else 0
  {
    if cs != [] {
      assert (cs + [c])[1..] == cs[1..] + [c];
      CountDirectAppend(cs[1..], c, a, b);
    }
  }

  /** Who started the chat does not matter: the query is symmetric. */
  lemma FindDirectSymmetric(cs: seq<Chat>, a: string, b: string)
    ensures FindDirect(cs, a, b) == FindDirect(cs, b, a)
  {
    if cs != [] {
      FindDirectSymmetric(cs[1..], a, b);
    }
  }

  /** A reply with a chat, or the handler's rejection, which `asyncHandler` hands to the
      error middleware. */
  datatype ChatReply = ChatReply(status: nat, chat: Chat) | ServerError

  /** The lookup's ids cast to ObjectIds: the requester's, and `userId` when it is given;
      an absent `userId` is cast to `null`. */
  predicate QueryCasts(requester: string, userId: Option<string>, castable: string -> bool) {
    castable(requester) && (userId.Some? ==> castable(userId.value))
  }

  /** `createChat`. A requester or `userId` that `castable`, Mongoose's ObjectId cast test,
      refuses makes the lookup reject: nothing is stored. Without `userId` the lookup asks
      for a `null` participant and finds nothing, and `new ObjectId(undefined)` makes up an
      id, `generated`, so a chat of the requester and that id is created. Otherwise an
      existing one-to-one chat of the two users is returned with 200 and nothing is stored,
      or one chat of exactly the two is created, with 201. Either way the two end up sharing
      exactly as many one-to-one chats as before, or one if they had none, so repeating the
      request never makes a second one. */
  method CreateChat(db: Store.Db, requester: string, userId: Option<string>, generated: string,
                    castable: string -> bool, now: nat)
    returns (reply: ChatReply)
    requires db.Valid()
    modifies db`chats
    ensures db.Valid()
    ensures !QueryCasts(requester, userId, castable) ==> reply == ServerError && db.chats == old(db.chats)
    ensures QueryCasts(requester, userId, castable) && userId.Some? &&
            FindDirect(old(db.chats), requester, userId.value).Some? ==>
      && reply == ChatReply(200, old(db.chats)[FindDirect(old(db.chats), requester, userId.value).value])
      && db.chats == old(db.chats)
    ensures QueryCasts(requester, userId, castable) &&
            (userId.Some? ==> FindDirect(old(db.chats), requester, userId.value).None?) ==>
      && reply.ChatReply? && reply.status == 201
      && db.chats == old(db.chats) + [reply.chat]
      && reply.chat.id !in Store.ChatIds(old(db.chats))
      && reply.chat.participants == [requester, if userId.Some? then userId.value else generated]
      && !reply.chat.isGroupChat && reply.chat.chatName.None? && reply.chat.groupAdmin.None?
      && reply.chat.latestMessage.None? && reply.chat.createdAt == now
    ensures QueryCasts(requester, userId, castable) && userId.Some? ==>
      CountDirect(db.chats, requester, userId.value) ==
        if CountDirect(old(db.chats), requester, userId.value) == 0 then 1
        else CountDirect(old(db.chats), requester, userId.value)
  {
    if !QueryCasts(requester, userId, castable) {
      return ServerError;
    }
    var partner := generated;
    if userId.Some? {
      partner := userId.value;
      var found := FindDirect(db.chats, requester, partner);
      if found.Some? {
        return ChatReply(200, db.chats[found.value]);
      }
    }
    var id := Store.FreshId(Store.ChatIds(db.chats));
    var chat := Models.CreateChat(ChatFields(None, None, [requester, partner], None), id, now);
    CountDirectAppend(db.chats, chat, requester, partner);
    db.InsertChat(chat);
    reply := ChatReply(201, chat);
  }

  /** `createGroupChat`: the participants are the requester followed by `users`. A group of
      that name already holding them all is returned with 200; otherwise a group is created
      with the requester as admin, with 201. */
  method CreateGroupChat(db: Store.Db, requester: string, name: string, users: seq<string>, now: nat)
    returns (reply: ChatReply)
    requires db.Valid()
    modifies db`chats
    ensures db.Valid()
    ensures FindGroup(old(db.chats), Text.Trim(name), [requester] + users).Some? ==>
      && reply == ChatReply(200, old(db.chats)[FindGroup(old(db.chats), Text.Trim(name), [requester] + users).value])
      && db.chats == old(db.chats)
    ensures FindGroup(old(db.chats), Text.Trim(name), [requester] + users).None? ==>
      && reply.ChatReply? && reply.status == 201
      && db.chats == old(db.chats) + [reply.chat]
      && reply.chat.id !in Store.ChatIds(old(db.chats))
      && reply.chat.participants == [requester] + users
      && reply.chat.isGroupChat
      && reply.chat.chatName == Some(Text.Trim(name))
      && reply.chat.groupAdmin == Some(requester)
      && reply.chat.latestMessage.None?
    ensures reply.ChatReply? && IsSameGroup(reply.chat, Text.Trim(name), [requester] + users)
  {
    var all := [requester] + users;
    var found := FindGroup(db.chats, Text.Trim(name), all);
    if found.Some? {
      return ChatReply(200, db.chats[found.value]);
    }
    var id := Store.FreshId(Store.ChatIds(db.chats));
    var chat := Models.CreateChat(ChatFields(Some(name), Some(true), all, Some(requester)), id, now);
    db.InsertChat(chat);
    reply := ChatReply(201, chat);
  }

  // ---------------------------------------------------------------- reading

  /** `Chat.find({ participants: userId })`. */
  function ChatsOf(cs: seq<Chat>, user: string): (r: seq<Chat>)
    ensures forall c :: c in r <==> c in cs && user in c.participants
    ensures |r| <= |cs|
  {
    if cs == [] then []
    else (if user in cs[0].participants then [cs[0]] else []) + ChatsOf(cs[1..], user)
  }

  predicate NewestFirst(cs: seq<Chat>) {
    forall i, j :: 0 <= i < j < |cs| ==> cs[i].updatedAt >= cs[j].updatedAt
  }

  function Insert(c: Chat, cs: seq<Chat>): (r: seq<Chat>)
    requires NewestFirst(cs)
    ensures NewestFirst(r)
    ensures forall x :: x in r <==> x == c || x in cs
    ensures multiset(r) == multiset(cs) + multiset{c}
  {
    if cs == [] || c.updatedAt >= cs[0].updatedAt then [c] + cs
    else
      var rest := Insert(c, cs[1..]);
      assert cs == [cs[0]] + cs[1..];
      InsertHead(cs[0], rest);
      [cs[0]] + rest
  }

  lemma InsertHead(h: Chat, rest: seq<Chat>)
    requires NewestFirst(rest)
    requires forall x :: x in rest ==> h.updatedAt >= x.updatedAt
    ensures NewestFirst([h] + rest)
  {
    forall i, j | 0 <= i < j < |[h] + rest|
      ensures ([h] + rest)[i].updatedAt >= ([h] + rest)[j].updatedAt
    {
      if i == 0 {
        assert ([h] + rest)[j] == rest[j - 1];
      }
    }
  }

  /** `.sort({ updatedAt: -1 })`: the same chats, most recently updated first. Chats with the
      same `updatedAt` keep their relative order here; the database does not promise one. */
  function SortNewestFirst(cs: seq<Chat>): (r: seq<Chat>)
    ensures NewestFirst(r)
    ensures multiset(r) == multiset(cs)
  {
    if cs == [] then []
    else
      assert cs == [cs[0]] + cs[1..];
      Insert(cs[0], SortNewestFirst(cs[1..]))
  }

  /** One chat, populated and formatted by its type. */
  function FormatOne(c: Chat, users: seq<User>, messages: seq<Message>, current: string)
    : (r: Option<Formatters.FormattedChat>)
    ensures r.Some? ==> r.value.Id() == c.id && r.value.Timestamp() == c.updatedAt
    ensures c.isGroupChat ==> r.Some?
  {
    Formatters.Format(Formatters.Populate(c, users, messages), current, messages)
  }

  /** What `FormatOne` gives by the chat's type: a group always gives its group entry; a
      one-to-one chat gives none exactly when no populated participant is someone else, and
      otherwise the direct formatter's entry. */
  lemma FormatOneByType(c: Chat, users: seq<User>, messages: seq<Message>, current: string)
    ensures c.isGroupChat ==>
      FormatOne(c, users, messages, current)
      == Some(Formatters.Group(Formatters.FormatGroupChatResponse(Formatters.Populate(c, users, messages), current, messages)))
    ensures !c.isGroupChat ==>
      (FormatOne(c, users, messages, current).None? <==> forall u :: u in Formatters.PopulateUsers(c.participants, users) ==> u.id == current)
    ensures !c.isGroupChat && FormatOne(c, users, messages, current).Some? ==>
      Some(Formatters.Direct(Formatters.FormatChatResponse(Formatters.Populate(c, users, messages), current, messages).value))
      == FormatOne(c, users, messages, current)
  {
    var p := Formatters.Populate(c, users, messages);
    assert (forall i :: 0 <= i < |p.participants| ==> p.participants[i].id == current)
       <==> (forall u :: u in p.participants ==> u.id == current);
  }

  /** The step's soundness clause: the entries a chat formats to. */
  ghost predicate FormattedFrom(r: seq<Formatters.FormattedChat>, cs: seq<Chat>, users: seq<User>, messages: seq<Message>, current: string) {
    forall f :: f in r ==> exists c :: c in cs && FormatOne(c, users, messages, current) == Some(f)
  }

  /** The step's completeness clause: every chat that formats to an entry has it listed. */
  ghost predicate KeepsFormatted(r: seq<Formatters.FormattedChat>, cs: seq<Chat>, users: seq<User>, messages: seq<Message>, current: string) {
    forall c :: c in cs && FormatOne(c, users, messages, current).Some? ==> FormatOne(c, users, messages, current).value in r
  }

  /** Formatted entries, most recently updated first. */
  predicate EntriesNewestFirst(r: seq<Formatters.FormattedChat>) {
    forall i, j :: 0 <= i < j < |r| ==> r[i].Timestamp() >= r[j].Timestamp()
  }

  /** Format each chat and drop the `null`s, keeping the order: exactly the entries the
      chats format to are listed. */
  function FormatAll(cs: seq<Chat>, users: seq<User>, messages: seq<Message>, current: string)
    : (r: seq<Formatters.FormattedChat>)
    ensures |r| <= |cs|
    ensures FormattedFrom(r, cs, users, messages, current)
    ensures KeepsFormatted(r, cs, users, messages, current)
    ensures NewestFirst(cs) ==> EntriesNewestFirst(r)
  {
    if cs == [] then []
    else
      var rest := FormatAll(cs[1..], users, messages, current);
      FormatAllStep(cs, users, messages, current, rest);
      var head := FormatOne(cs[0], users, messages, current);
      if head.Some? then [head.value] + rest else rest
  }

  /** One step of `FormatAll`: the head's entry in front of the tail's keeps all three
      properties. */
  lemma FormatAllStep(cs: seq<Chat>, users: seq<User>, messages: seq<Message>, current: string, rest: seq<Formatters.FormattedChat>)
    requires cs != []
    requires FormattedFrom(rest, cs[1..], users, messages, current)
    requires KeepsFormatted(rest, cs[1..], users, messages, current)
    requires NewestFirst(cs[1..]) ==> EntriesNewestFirst(rest)
    ensures var head := FormatOne(cs[0], users, messages, current);
      var r := if head.Some? then [head.value] + rest else rest;
      && FormattedFrom(r, cs, users, messages, current)
      && KeepsFormatted(r, cs, users, messages, current)
      && (NewestFirst(cs) ==> EntriesNewestFirst(r))
  {
    FormatAllStepFrom(cs, users, messages, current, rest);
    FormatAllStepKept(cs, users, messages, current, rest);
    if NewestFirst(cs) {
      RestNotNewer(cs, users, messages, current, rest);
    }
    FormatAllStepOrder(cs, FormatOne(cs[0], users, messages, current), rest);
  }

  /** Every entry the step lists is what some chat of `cs` formats to. */
  lemma FormatAllStepFrom(cs: seq<Chat>, users: seq<User>, messages: seq<Message>, current: string, rest: seq<Formatters.FormattedChat>)
    requires cs != []
    requires FormattedFrom(rest, cs[1..], users, messages, current)
    ensures var head := FormatOne(cs[0], users, messages, current);
      FormattedFrom(if head.Some? then [head.value] + rest else rest, cs, users, messages, current)
  {
    SomeStepFrom(cs, (c: Chat) => FormatOne(c, users, messages, current), rest);
  }

  /** The step drops no chat that formats to an entry. */
  lemma FormatAllStepKept(cs: seq<Chat>, users: seq<User>, messages: seq<Message>, current: string, rest: seq<Formatters.FormattedChat>)
    requires cs != []
    requires KeepsFormatted(rest, cs[1..], users, messages, current)
    ensures var head := FormatOne(cs[0], users, messages, current);
      KeepsFormatted(if head.Some? then [head.value] + rest else rest, cs, users, messages, current)
  {
    SomeStepKept(cs, (c: Chat) => FormatOne(c, users, messages, current), rest);
  }

  /** Mapping to optional values and dropping the absent ones, one step: every kept value
      comes from an element. */
  lemma SomeStepFrom<A, B>(xs: seq<A>, f: A -> Option<B>, rest: seq<B>)
    requires xs != []
    requires forall y :: y in rest ==> exists x :: x in xs[1..] && f(x) == Some(y)
    ensures var r := if f(xs[0]).Some? then [f(xs[0]).value] + rest else rest;
      forall y :: y in r ==> exists x :: x in xs && f(x) == Some(y)
  {
    var r := if f(xs[0]).Some? then [f(xs[0]).value] + rest else rest;
    forall y | y in r ensures exists x :: x in xs && f(x) == Some(y) {
      if y !in rest {
        assert f(xs[0]) == Some(y) && xs[0] in xs;
      } else {
        var x :| x in xs[1..] && f(x) == Some(y);
        assert x in xs;
      }
    }
  }

  /** The same step drops no present value. */
  lemma SomeStepKept<A, B>(xs: seq<A>, f: A -> Option<B>, rest: seq<B>)
    requires xs != []
    requires forall x :: x in xs[1..] && f(x).Some? ==> f(x).value in rest
    ensures var r := if f(xs[0]).Some? then [f(xs[0]).value] + rest else rest;
      forall x :: x in xs && f(x).Some? ==> f(x).value in r
  {
    var r := if f(xs[0]).Some? then [f(xs[0]).value] + rest else rest;
    forall x | x in xs && f(x).Some? ensures f(x).value in r {
      if x != xs[0] {
        assert xs == [xs[0]] + xs[1..];
        assert x in xs[1..];
      }
    }
  }

  /** In a newest-first input no entry formatted from the tail is newer than the head. */
  lemma RestNotNewer(cs: seq<Chat>, users: seq<User>, messages: seq<Message>, current: string, rest: seq<Formatters.FormattedChat>)
    requires cs != [] && NewestFirst(cs)
    requires FormattedFrom(rest, cs[1..], users, messages, current)
    ensures forall f :: f in rest ==> f.Timestamp() <= cs[0].updatedAt
  {
    forall f | f in rest ensures f.Timestamp() <= cs[0].updatedAt {
      var c :| c in cs[1..] && FormatOne(c, users, messages, current) == Some(f);
      var k :| 0 <= k < |cs[1..]| && cs[1..][k] == c;
      assert cs[k + 1] == c;
    }
  }

  /** The step keeps a newest-first input newest first. */
  lemma FormatAllStepOrder(cs: seq<Chat>, head: Option<Formatters.FormattedChat>, rest: seq<Formatters.FormattedChat>)
    requires cs != []
    requires NewestFirst(cs) ==> forall f :: f in rest ==> f.Timestamp() <= cs[0].updatedAt
    requires NewestFirst(cs[1..]) ==> EntriesNewestFirst(rest)
    requires head.Some? ==> head.value.Timestamp() == cs[0].updatedAt
    ensures NewestFirst(cs) ==> EntriesNewestFirst(if head.Some? then [head.value] + rest else rest)
  {
    if NewestFirst(cs) {
      assert NewestFirst(cs[1..]) by {
        forall i, j | 0 <= i < j < |cs[1..]| ensures cs[1..][i].updatedAt >= cs[1..][j].updatedAt {
          assert cs[1..][i] == cs[i + 1] && cs[1..][j] == cs[j + 1];
        }
      }
      if head.Some? {
        var r := [head.value] + rest;
        forall i, j | 0 <= i < j < |r| ensures r[i].Timestamp() >= r[j].Timestamp() {
          if i == 0 {
            assert r[j] in rest;
          } else {
            assert r[i] == rest[i - 1] && r[j] == rest[j - 1];
          }
        }
      }
    }
  }

  /** `getAllChats`: the current user's chats, newest first, formatted by type, with the
      one-to-one chats that have no other participant left out. */
  function GetAllChats(cs: seq<Chat>, users: seq<User>, messages: seq<Message>, current: string)
    : (r: seq<Formatters.FormattedChat>)
    ensures forall f :: f in r ==>
      exists c :: c in cs && current in c.participants && FormatOne(c, users, messages, current) == Some(f)
    ensures forall c :: c in cs && current in c.participants && FormatOne(c, users, messages, current).Some? ==>
      FormatOne(c, users, messages, current).value in r
    ensures forall i, j :: 0 <= i < j < |r| ==> r[i].Timestamp() >= r[j].Timestamp()
    ensures forall c :: c in cs && current in c.participants && c.isGroupChat ==> exists f :: f in r && f.Id() == c.id
    ensures |r| <= |ChatsOf(cs, current)|
  {
    var mine := SortNewestFirst(ChatsOf(cs, current));
    assert forall c :: c in mine <==> c in ChatsOf(cs, current) by {
      forall c ensures c in mine <==> c in ChatsOf(cs, current) {
        assert c in mine <==> c in multiset(mine);
      }
    }
    assert |mine| == |multiset(mine)| == |ChatsOf(cs, current)|;
    var r := FormatAll(mine, users, messages, current);
    assert forall c :: c in cs && current in c.participants && c.isGroupChat ==> exists f :: f in r && f.Id() == c.id by {
      forall c | c in cs && current in c.participants && c.isGroupChat ensures exists f :: f in r && f.Id() == c.id {
        assert c in mine;
        assert FormatOne(c, users, messages, current).value in r;
      }
    }
    r
  }

  datatype ChatByIdReply =
    | NotFound(status: nat, message: string)
    | Found(status: nat, chat: Option<Formatters.FormattedChat>)
      /** `findById` rejected an id that does not cast to an ObjectId. */
    | CastFailed

  /** `getChatById`: 404 when no chat has the id; otherwise 200 with the formatted chat, which
      is `null` for a one-to-one chat without another participant. An id that `castable`,
      Mongoose's ObjectId cast test, refuses makes `findById` reject before any lookup.
      Membership of the requester is not checked. */
  function GetChatById(cs: seq<Chat>, users: seq<User>, messages: seq<Message>, current: string, id: string,
                       castable: string -> bool)
    : (r: ChatByIdReply)
    ensures r.CastFailed? <==> !castable(id)
    ensures r.NotFound? <==> castable(id) && id !in Store.ChatIds(cs)
    ensures r.NotFound? ==> r == NotFound(404, "Chat not found")
    ensures r.Found? ==> r.status == 200 && (r.chat.Some? ==> r.chat.value.Id() == id)
    ensures r.Found? ==>
      Store.FindChat(cs, id).Some? && r.chat == FormatOne(Store.FindChat(cs, id).value, users, messages, current)
  {
    if !castable(id) then CastFailed
    else match Store.FindChat(cs, id)
    case None => NotFound(404, "Chat not found")
    case Some(c) => Found(200, Formatters.Format(Formatters.Populate(c, users, messages), current, messages))
  }
}
