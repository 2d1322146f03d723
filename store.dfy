/** The three MongoDB collections the core reads and writes, held in memory. A document is
    found by its `_id`; a new document gets an `_id` no document of its collection has. */
module Store {
  import opened Wrappers
  import opened Models
  import Lists
  import ReadState

  function UserIds(us: seq<User>): (r: seq<string>)
    ensures |r| == |us|
    ensures forall i :: 0 <= i < |us| ==> r[i] == us[i].id
  {
    if us == [] then [] else [us[0].id] + UserIds(us[1..])
  }

  function Emails(us: seq<User>): (r: seq<string>)
    ensures |r| == |us|
    ensures forall i :: 0 <= i < |us| ==> r[i] == us[i].email
  {
    if us == [] then [] else [us[0].email] + Emails(us[1..])
  }

  function ChatIds(cs: seq<Chat>): (r: seq<string>)
    ensures |r| == |cs|
    ensures forall i :: 0 <= i < |cs| ==> r[i] == cs[i].id
  {
    if cs == [] then [] else [cs[0].id] + ChatIds(cs[1..])
  }

  function MessageIds(ms: seq<Message>): (r: seq<string>)
    ensures |r| == |ms|
    ensures forall i :: 0 <= i < |ms| ==> r[i] == ms[i].id
  {
    if ms == [] then [] else [ms[0].id] + MessageIds(ms[1..])
  }

  /** An upper bound on the lengths of the given identifiers. */
  function LongestLength(ids: seq<string>): (n: nat)
    ensures forall i :: 0 <= i < |ids| ==> |ids[i]| <= n
  {
    if ids == [] then 0
    else
      var rest := LongestLength(ids[1..]);
      assert forall i :: 1 <= i < |ids| ==> ids[i] == ids[1..][i - 1];
      if |ids[0]| > rest then |ids[0]| else rest
  }

  /** A new ObjectId: an identifier none of `used` is equal to (here, one longer than all). */
  function FreshId(used: seq<string>): (r: string)
    ensures r !in used
    ensures r != ""
  {
    seq(LongestLength(used) + 1, _ => 'f')
  }

  /** `findById` on the chats: the first chat with that `_id`. */
  function FindChat(cs: seq<Chat>, id: string): (r: Option<Chat>)
    ensures r.None? <==> id !in ChatIds(cs)
    ensures r.Some? ==> r.value in cs && r.value.id == id
  {
    if cs == [] then None
    else if cs[0].id == id then Some(cs[0])
    else
      assert ChatIds(cs) == [cs[0].id] + ChatIds(cs[1..]);
      FindChat(cs[1..], id)
  }

  /** `findById` on the users. */
  function FindUser(us: seq<User>, id: string): (r: Option<User>)
    ensures r.None? <==> id !in UserIds(us)
    ensures r.Some? ==> r.value in us && r.value.id == id
  {
    if us == [] then None
    else if us[0].id == id then Some(us[0])
    else
      assert UserIds(us) == [us[0].id] + UserIds(us[1..]);
      FindUser(us[1..], id)
  }

  /** `findById` on the messages. */
  function FindMessage(ms: seq<Message>, id: string): (r: Option<Message>)
    ensures r.None? <==> id !in MessageIds(ms)
    ensures r.Some? ==> r.value in ms && r.value.id == id
  {
    if ms == [] then None
    else if ms[0].id == id then Some(ms[0])
    else
      assert MessageIds(ms) == [ms[0].id] + MessageIds(ms[1..]);
      FindMessage(ms[1..], id)
  }

  /** `Chat.findByIdAndUpdate(id, {latestMessage})`: the chat with that `_id` points at the
      message and its `updatedAt` is `now`; every other chat is as it was. An unknown `_id`
      matches nothing and changes nothing. */
  function SetLatest(cs: seq<Chat>, id: string, messageId: string, now: nat): (r: seq<Chat>)
    ensures ChatIds(r) == ChatIds(cs)
    ensures id !in ChatIds(cs) ==> r == cs
    ensures id in ChatIds(cs) ==>
      FindChat(r, id) == Some(FindChat(cs, id).value.(latestMessage := Some(messageId), updatedAt := now))
    ensures forall other :: other != id ==> FindChat(r, other) == FindChat(cs, other)
  {
    if cs == [] then []
    else if cs[0].id == id then [cs[0].(latestMessage := Some(messageId), updatedAt := now)] + cs[1..]
    else
      var r := [cs[0]] + SetLatest(cs[1..], id, messageId, now);
      assert ChatIds(cs) == [cs[0].id] + ChatIds(cs[1..]);
      assert ChatIds(r) == [r[0].id] + ChatIds(r[1..]);
      assert r[1..] == SetLatest(cs[1..], id, messageId, now);
      r
  }

  lemma IdsAppend(ms: seq<Message>, m: Message)
    ensures MessageIds(ms + [m]) == MessageIds(ms) + [m.id]
  {
  }

  class Db {
    var users: seq<User>
    var chats: seq<Chat>
    var messages: seq<Message>

    /** `_id` is unique in each collection; `email` is unique among users. */
    ghost predicate Valid()
      reads this
    {
      && Lists.Distinct(UserIds(users))
      && Lists.Distinct(Emails(users))
      && Lists.Distinct(ChatIds(chats))
      && Lists.Distinct(MessageIds(messages))
    }

    constructor ()
      ensures Valid()
      ensures users == [] && chats == [] && messages == []
    {
      users, chats, messages := [], [], [];
    }

    /** `Message.create`'s insert of an already validated document. */
    method InsertMessage(m: Message)
      requires Valid() && m.id !in MessageIds(messages)
      modifies this`messages
      ensures Valid()
      ensures messages == old(messages) + [m]
    {
      assert MessageIds(messages + [m]) == MessageIds(messages) + [m.id];
      Lists.DistinctAppend(MessageIds(messages), m.id);
      messages := messages + [m];
    }

    method InsertChat(c: Chat)
      requires Valid() && c.id !in ChatIds(chats)
      modifies this`chats
      ensures Valid()
      ensures chats == old(chats) + [c]
    {
      assert ChatIds(chats + [c]) == ChatIds(chats) + [c.id];
      Lists.DistinctAppend(ChatIds(chats), c.id);
      chats := chats + [c];
    }

    method InsertUser(u: User)
      requires Valid() && u.id !in UserIds(users) && u.email !in Emails(users)
      modifies this`users
      ensures Valid()
      ensures users == old(users) + [u]
    {
      assert UserIds(users + [u]) == UserIds(users) + [u.id];
      assert Emails(users + [u]) == Emails(users) + [u.email];
      Lists.DistinctAppend(UserIds(users), u.id);
      Lists.DistinctAppend(Emails(users), u.email);
      users := users + [u];
    }

    /** `Chat.findByIdAndUpdate(id, {latestMessage: messageId})`. */
    method UpdateLatestMessage(id: string, messageId: string, now: nat)
      requires Valid()
      modifies this`chats
      ensures Valid()
      ensures chats == SetLatest(old(chats), id, messageId, now)
    {
      chats := SetLatest(chats, id, messageId, now);
    }

    /** `Message.updateMany({chat, sender: {$ne: reader}, status: {$ne: 'read'}}, {status: 'read'})`. */
    method MarkChatRead(chat: string, reader: string, now: nat)
      requires Valid()
      modifies this`messages
      ensures Valid()
      ensures messages == ReadState.MarkRead(old(messages), chat, reader, now)
    {
      var r := ReadState.MarkRead(messages, chat, reader, now);
      assert MessageIds(r) == MessageIds(messages);
      messages := r;
    }
  }
}
