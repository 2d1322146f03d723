/** Read reconciliation: the bulk `updateMany` of the `chat:read` handler and the unread
    count the chat-list formatters compute with the complementary filter. */
module ReadState {
  import opened Models

  /** The filter both sides use: a message of `chat`, sent by someone other than `user`,
      whose status is not yet `read`. */
  predicate Unread(m: Message, chat: string, user: string) {
    m.chat == chat && m.sender != user && m.status != Read
  }

  /** `Message.updateMany(filter, {status: 'read'})`: every matching message becomes `read`
      and gets the update's timestamp; every other message stays exactly as it was. */
  function MarkRead(ms: seq<Message>, chat: string, reader: string, now: nat): (r: seq<Message>)
    ensures |r| == |ms|
    ensures forall i :: 0 <= i < |ms| && Unread(ms[i], chat, reader) ==>
      r[i] == ms[i].(status := Read, updatedAt := now)
    ensures forall i :: 0 <= i < |ms| && !Unread(ms[i], chat, reader) ==> r[i] == ms[i]
  {
    if ms == [] then []
    else
      var m := ms[0];
      var m' := if Unread(m, chat, reader) then m.(status := Read, updatedAt := now) else m;
      [m'] + MarkRead(ms[1..], chat, reader, now)
  }

  /** The messages of one chat. */
  function InChat(ms: seq<Message>, chat: string): (r: seq<Message>)
    ensures |r| <= |ms|
    ensures forall m :: m in r <==> m in ms && m.chat == chat
  {
    if ms == [] then []
    else (if ms[0].chat == chat then [ms[0]] else []) + InChat(ms[1..], chat)
  }

  /** `Message.countDocuments({chat, sender: {$ne: user}, status: {$ne: 'read'}})`, which can
      never exceed the number of messages in the chat. */
  function UnreadCount(ms: seq<Message>, chat: string, user: string): (n: nat)
    ensures n <= |InChat(ms, chat)|
    ensures n == 0 <==> forall i :: 0 <= i < |ms| ==> !Unread(ms[i], chat, user)
  {
    if ms == [] then 0
    else
      var rest := UnreadCount(ms[1..], chat, user);
      assert forall i :: 1 <= i < |ms| ==> ms[i] == ms[1..][i - 1];
      (if Unread(ms[0], chat, user) then 1 else 0) + rest
  }

  /** Right after `chat:read` by `user` on `chat`, that user has no unread message there. */
  lemma UnreadAfterRead(ms: seq<Message>, chat: string, user: string, now: nat)
    ensures UnreadCount(MarkRead(ms, chat, user, now), chat, user) == 0
  {
  }

  /** Reading twice is reading once: the second `updateMany` matches nothing. */
  lemma MarkReadIdempotent(ms: seq<Message>, chat: string, reader: string, now: nat, later: nat)
    ensures MarkRead(MarkRead(ms, chat, reader, now), chat, reader, later) == MarkRead(ms, chat, reader, now)
  {
    UnreadAfterRead(ms, chat, reader, now);
  }

  /** The status of a message only moves forward, and `read` is never left; `delivered` is
      never written. Ids, contents, chats and senders are untouched. */
  lemma MarkReadMonotone(ms: seq<Message>, chat: string, reader: string, now: nat, i: nat)
    requires i < |ms|
    ensures Rank(MarkRead(ms, chat, reader, now)[i].status) >= Rank(ms[i].status)
    ensures ms[i].status == Read ==> MarkRead(ms, chat, reader, now)[i] == ms[i]
    ensures MarkRead(ms, chat, reader, now)[i].status == Delivered ==> ms[i].status == Delivered
    ensures MarkRead(ms, chat, reader, now)[i].id == ms[i].id
    ensures MarkRead(ms, chat, reader, now)[i].content == ms[i].content
    ensures MarkRead(ms, chat, reader, now)[i].chat == ms[i].chat
    ensures MarkRead(ms, chat, reader, now)[i].sender == ms[i].sender
  {
  }

  /** Sending a message adds one unread message for every member other than its sender, and
      none for the sender. */
  lemma {:induction false} UnreadCountAppend(ms: seq<Message>, m: Message, chat: string, user: string)
    ensures UnreadCount(ms + [m], chat, user) == UnreadCount(ms, chat, user) + (if Unread(m, chat, user) then 1 else 0)
  {
    if ms != [] {
      assert (ms + [m])[1..] == ms[1..] + [m];
      UnreadCountAppend(ms[1..], m, chat, user);
    }
  }

  /** A read of the chat by any member never raises anyone's unread count: it only turns
      statuses into `read`. */
  lemma {:induction false} UnreadCountOtherReader(ms: seq<Message>, chat: string, reader: string, user: string, now: nat)
    ensures UnreadCount(MarkRead(ms, chat, reader, now), chat, user) <= UnreadCount(ms, chat, user)
  {
    if ms != [] {
      var r := MarkRead(ms, chat, reader, now);
      assert r[1..] == MarkRead(ms[1..], chat, reader, now);
      UnreadCountOtherReader(ms[1..], chat, reader, user, now);
    }
  }
}
