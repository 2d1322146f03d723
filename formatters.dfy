/** The chat-list entries the API returns: a one-to-one chat described by the other
    participant, a group chat by its name and members, both with the number of messages
    the current user has not read. */
module Formatters {
  import opened Wrappers
  import opened Models
  import Store
  import ReadState

  /** A chat with `participants` and `latestMessage` populated. */
  datatype PopulatedChat = PopulatedChat(
    id: string,
    chatName: Option<string>,
    isGroupChat: bool,
    participants: seq<User>,
    latestMessage: Option<Message>,
    groupAdmin: Option<string>,
    updatedAt: nat)

  /** Populating an array of references: each id becomes its user document, in the order
      and with the repetitions of the ids, and an id that matches no document is dropped
      (`PopulateUsersKnown` and `PopulateUsersAppend` state the order). */
  function PopulateUsers(ids: seq<string>, users: seq<User>): (r: seq<User>)
    ensures |r| <= |ids|
    ensures forall u :: u in r ==> u in users && u.id in ids
    ensures forall id :: id in ids && id in Store.UserIds(users) ==> exists u :: u in r && u.id == id
  {
    if ids == [] then []
    else
      var rest := PopulateUsers(ids[1..], users);
      assert forall id :: id in ids ==> id == ids[0] || id in ids[1..];
      match Store.FindUser(users, ids[0])
      case None => rest
      case Some(u) => [u] + rest
  }

  /** When every id is known, populating gives one document per id, in the ids' order. */
  lemma {:induction false} PopulateUsersKnown(ids: seq<string>, users: seq<User>)
    requires forall id :: id in ids ==> id in Store.UserIds(users)
    ensures |PopulateUsers(ids, users)| == |ids|
    ensures forall i :: 0 <= i < |ids| ==> PopulateUsers(ids, users)[i].id == ids[i]
  {
    if ids != [] {
      assert forall id :: id in ids[1..] ==> id in ids;
      PopulateUsersKnown(ids[1..], users);
      var u := Store.FindUser(users, ids[0]);
      assert u.Some?;
      assert PopulateUsers(ids, users) == [u.value] + PopulateUsers(ids[1..], users);
    }
  }

  /** Populating a concatenation populates each part in turn: the ids' order is kept. */
  lemma {:induction false} PopulateUsersAppend(a: seq<string>, b: seq<string>, users: seq<User>)
    ensures PopulateUsers(a + b, users) == PopulateUsers(a, users) + PopulateUsers(b, users)
  {
    if a == [] {
      assert a + b == b;
    } else {
      assert (a + b)[0] == a[0];
      assert (a + b)[1..] == a[1..] + b;
      PopulateUsersAppend(a[1..], b, users);
    }
  }

  function Populate(c: Chat, users: seq<User>, messages: seq<Message>): (p: PopulatedChat)
    ensures p.id == c.id && p.chatName == c.chatName && p.isGroupChat == c.isGroupChat
    ensures p.groupAdmin == c.groupAdmin && p.updatedAt == c.updatedAt
    ensures p.participants == PopulateUsers(c.participants, users)
    ensures p.latestMessage.Some? ==> c.latestMessage.Some? && p.latestMessage.value.id == c.latestMessage.value
    ensures p.latestMessage.Some? ==> p.latestMessage.value in messages
    ensures p.latestMessage.Some? <==>
              c.latestMessage.Some? && c.latestMessage.value in Store.MessageIds(messages)
    ensures c.latestMessage.Some? ==> p.latestMessage == Store.FindMessage(messages, c.latestMessage.value)
  {
    PopulatedChat(c.id, c.chatName, c.isGroupChat, PopulateUsers(c.participants, users),
                  if c.latestMessage.Some? then Store.FindMessage(messages, c.latestMessage.value) else None,
                  c.groupAdmin, c.updatedAt)
  }

  /** `participants.find((p) => p._id.toString() !== currentUserId)`, as an index. */
  function FirstOther(ps: seq<User>, current: string): (r: Option<nat>)
    ensures r.None? <==> forall i :: 0 <= i < |ps| ==> ps[i].id == current
    ensures r.Some? ==> r.value < |ps| && ps[r.value].id != current
    ensures r.Some? ==> forall j :: 0 <= j < r.value ==> ps[j].id == current
  {
    if ps == [] then None
    else if ps[0].id != current then Some(0)
    else
      match FirstOther(ps[1..], current)
      case None => None
      case Some(k) => Some(k + 1)
  }

  /** `chat.latestMessage?.content || ''`. */
  function LastMessage(m: Option<Message>): (r: string)
    ensures m.None? ==> r == ""
    ensures m.Some? ==> r == m.value.content
  {
    if m.Some? then m.value.content else ""
  }

  /** The entry of a one-to-one chat. The user documents carry no `isOnline` or `lastSeen`,
      so those two fields are always undefined and are not represented. */
  datatype Summary = Summary(
    id: string, userId: string, name: Option<string>, avatar: string,
    lastMessage: string, timestamp: nat, unread: nat, isGroupChat: bool)

  datatype ParticipantView = ParticipantView(id: string, name: Option<string>, avatar: Option<string>)

  /** The entry of a group chat. The chat schema has no `chatAvatar`, so `avatar` is `''`. */
  datatype GroupSummary = GroupSummary(
    id: string, name: Option<string>, avatar: string, memberCount: nat,
    participants: seq<ParticipantView>, lastMessage: string, timestamp: nat, unread: nat,
    isGroupChat: bool, groupAdmin: Option<string>)

  datatype FormattedChat = Direct(summary: Summary) | Group(group: GroupSummary) {
    function Id(): string {
      match this
      case Direct(s) => s.id
      case Group(g) => g.id
    }
    function Timestamp(): nat {
      match this
      case Direct(s) => s.timestamp
      case Group(g) => g.timestamp
    }
  }

  /** `formatChatResponse`: `null` exactly when no participant is someone other than the
      current user; otherwise the first other participant names the chat, and `unread`
      counts the messages of the chat that others sent and that are not read. */
  function FormatChatResponse(chat: PopulatedChat, current: string, messages: seq<Message>): (r: Option<Summary>)
    ensures r.None? <==> forall i :: 0 <= i < |chat.participants| ==> chat.participants[i].id == current
    ensures r.Some? ==>
      var other := chat.participants[FirstOther(chat.participants, current).value];
      && other.id != current
      && r.value.userId == other.id && r.value.name == other.userName
      && r.value.avatar == other.avatar.GetOr("")
    ensures r.Some? ==>
      && r.value.id == chat.id
      && r.value.lastMessage == LastMessage(chat.latestMessage)
      && r.value.timestamp == chat.updatedAt
      && r.value.unread == ReadState.UnreadCount(messages, chat.id, current)
      && r.value.unread <= |ReadState.InChat(messages, chat.id)|
      && !r.value.isGroupChat
  {
    match FirstOther(chat.participants, current)
    case None => None
    case Some(k) =>
      var other := chat.participants[k];
      Some(Summary(chat.id, other.id, other.userName, other.avatar.GetOr(""),
                   LastMessage(chat.latestMessage), chat.updatedAt,
                   ReadState.UnreadCount(messages, chat.id, current), false))
  }

  function ParticipantViews(ps: seq<User>): (r: seq<ParticipantView>)
    ensures |r| == |ps|
    ensures forall i :: 0 <= i < |ps| ==> r[i] == ParticipantView(ps[i].id, ps[i].userName, ps[i].avatar)
  {
    if ps == [] then [] else [ParticipantView(ps[0].id, ps[0].userName, ps[0].avatar)] + ParticipantViews(ps[1..])
  }

  /** `formatGroupChatResponse`: every member listed in order, the member count, and the
      same unread count as for a one-to-one chat. */
  function FormatGroupChatResponse(chat: PopulatedChat, current: string, messages: seq<Message>): (r: GroupSummary)
    ensures r.id == chat.id && r.name == chat.chatName && r.groupAdmin == chat.groupAdmin
    ensures r.memberCount == |chat.participants| == |r.participants|
    ensures forall i :: 0 <= i < |r.participants| ==> r.participants[i].id == chat.participants[i].id
    ensures r.avatar == "" && r.isGroupChat
    ensures r.lastMessage == LastMessage(chat.latestMessage) && r.timestamp == chat.updatedAt
    ensures r.unread == ReadState.UnreadCount(messages, chat.id, current)
    ensures r.unread <= |ReadState.InChat(messages, chat.id)|
  {
    GroupSummary(chat.id, chat.chatName, "", |chat.participants|,
                 ParticipantViews(chat.participants), LastMessage(chat.latestMessage),
                 chat.updatedAt, ReadState.UnreadCount(messages, chat.id, current), true,
                 chat.groupAdmin)
  }

  /** `getAllChats`' choice of formatter: by the chat's type. */
  function Format(chat: PopulatedChat, current: string, messages: seq<Message>): (r: Option<FormattedChat>)
    ensures chat.isGroupChat ==> r == Some(Group(FormatGroupChatResponse(chat, current, messages)))
    ensures !chat.isGroupChat ==> (r.None? <==> FormatChatResponse(chat, current, messages).None?)
    ensures !chat.isGroupChat && r.Some? ==> r == Some(Direct(FormatChatResponse(chat, current, messages).value))
    ensures r.Some? ==> r.value.Id() == chat.id && r.value.Timestamp() == chat.updatedAt
  {
    if chat.isGroupChat then Some(Group(FormatGroupChatResponse(chat, current, messages)))
    else
      match FormatChatResponse(chat, current, messages)
      case None => None
      case Some(s) => Some(Direct(s))
  }

  /** Right after the current user's `chat:read` of a chat, its entry shows nothing unread. */
  lemma UnreadClearedByRead(chat: PopulatedChat, current: string, messages: seq<Message>, now: nat)
    ensures var after := ReadState.MarkRead(messages, chat.id, current, now);
      && FormatGroupChatResponse(chat, current, after).unread == 0
      && (FormatChatResponse(chat, current, after).Some? ==> FormatChatResponse(chat, current, after).value.unread == 0)
  {
    ReadState.UnreadAfterRead(messages, chat.id, current, now);
  }
}
