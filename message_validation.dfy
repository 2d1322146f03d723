/** The request schemas of the message routes. ObjectId validity is the abstract predicate
    `isObjectId`. */
module MessageValidation {
  import opened Wrappers
  import opened Zod
  import Text
  import Models

  const ContentRequired := "Message content is required"
  const ContentEmpty := "Message content cannot be empty"
  const ContentTooLong := "Message content must not exceed 5000 characters"
  const StatusInvalid := "Status must be one of: sent, delivered, read"

  datatype SendInput = SendInput(content: string, chat: string)
  datatype UpdateInput = UpdateInput(messageId: string, status: Option<Models.Status>)

  /** `sendMessageSchema`: the content's length is checked before it is trimmed. */
  function SendMessageSchema(content: Value, chat: Value, isObjectId: string -> bool): (r: Result<SendInput, set<Issue>>)
    ensures r.Ok? <==> content.Str? && 1 <= |content.s| <= 5000 && IsObjectId(chat, isObjectId)
    ensures r.Ok? ==> r.value == SendInput(Text.Trim(content.s), chat.s)
    ensures !content.Str? ==> r.Err? && Issue("body.content", None, ContentRequired) in r.error
    ensures content == Str("") ==> r.Err? && Issue("body.content", None, ContentEmpty) in r.error
    ensures content.Str? && |content.s| > 5000 ==> r.Err? && Issue("body.content", None, ContentTooLong) in r.error
    ensures chat.Str? && !isObjectId(chat.s) ==> r.Err? && Issue("body.chat", None, InvalidObjectId) in r.error
  {
    var c := StringField(content, "body.content", Some(ContentRequired),
                         [MinLength(1, ContentEmpty), MaxLength(5000, ContentTooLong), Trimmed]);
    assert content.Str? ==> c == Checked(TooShort(content.s, 1, "body.content", ContentEmpty)
                                         + TooLong(content.s, 5000, "body.content", ContentTooLong),
                                         Text.Trim(content.s)) by {
      if content.Str? { RunMinMaxTrim(content.s, 1, ContentEmpty, 5000, ContentTooLong, "body.content"); }
    }
    var issues := c.issues + ObjectIdField(chat, "body.chat", None, isObjectId);
    if issues == {} then Ok(SendInput(c.value, chat.s)) else Err(issues)
  }

  /** As written, content of white space alone passes the schema with the value `""`, which
      `Message.create` then refuses. */
  lemma BlankContentPassesSchema(chat: string, isObjectId: string -> bool, sender: string, id: string, now: nat)
    requires isObjectId(chat)
    ensures var r := SendMessageSchema(Str("   "), Str(chat), isObjectId);
      && r == Ok(SendInput("", chat))
      && Models.CreateMessage(Models.MessageFields(Some(sender), Some(r.value.content), Some(chat), None, None), id, now).Err?
  {
    Text.TrimSpaces("   ");
  }

  /** The content field with the trim first, as its messages describe it. */
  function ContentTrimFirst(content: Value): (r: Result<string, set<Issue>>)
    ensures r.Ok? <==> content.Str? && 1 <= |Text.Trim(content.s)| <= 5000
    ensures r.Ok? ==> r.value == Text.Trim(content.s) && 1 <= |r.value| <= 5000
  {
    var c := StringField(content, "body.content", Some(ContentRequired),
                         [Trimmed, MinLength(1, ContentEmpty), MaxLength(5000, ContentTooLong)]);
    assert content.Str? ==> c == Checked(TooShort(Text.Trim(content.s), 1, "body.content", ContentEmpty)
                                         + TooLong(Text.Trim(content.s), 5000, "body.content", ContentTooLong),
                                         Text.Trim(content.s)) by {
      if content.Str? { RunTrimMinMax(content.s, 1, ContentEmpty, 5000, ContentTooLong, "body.content"); }
    }
    if c.issues == {} then Ok(c.value) else Err(c.issues)
  }

  /** With the trim first, accepted content is always stored, unchanged. */
  lemma ContentTrimFirstIsStored(content: Value, c: string, sender: string, chat: string, id: string, now: nat)
    requires ContentTrimFirst(content) == Ok(c)
    ensures var m := Models.CreateMessage(Models.MessageFields(Some(sender), Some(c), Some(chat), None, None), id, now);
      m.Ok? && m.value.content == c
  {
    assert content.Str? && c == Text.Trim(content.s) && c != "";
    Text.TrimIdempotent(content.s);
    assert Text.Trim(c) == c;
    TrimmedContentIsStored(c, sender, chat, id, now);
  }

  /** Non-empty trimmed content is stored as it is. */
  lemma TrimmedContentIsStored(c: string, sender: string, chat: string, id: string, now: nat)
    requires c != "" && Text.Trim(c) == c
    ensures var m := Models.CreateMessage(Models.MessageFields(Some(sender), Some(c), Some(chat), None, None), id, now);
      m.Ok? && m.value.content == c
  {
    Text.TrimEmptyIffBlank(c);
  }

  /** `getAllMessagesSchema`. */
  function GetAllMessagesSchema(chat: Value, isObjectId: string -> bool): (r: Result<string, set<Issue>>)
    ensures r.Ok? <==> IsObjectId(chat, isObjectId)
    ensures r.Ok? ==> r.value == chat.s
    ensures r.Err? ==> r.error == ObjectIdField(chat, "query.chat", None, isObjectId)
  {
    ObjectIdParam(chat, "query.chat", isObjectId)
  }

  /** `z.enum(['sent', 'delivered', 'read'], {message}).optional()`. */
  function StatusField(v: Value): (r: Result<Option<Models.Status>, set<Issue>>)
    ensures v.Absent? ==> r == Ok(None)
    ensures r.Ok? && r.value.Some? ==> v.Str? && Models.StatusName(r.value.value) == v.s
    ensures r.Ok? <==> v.Absent? || (v.Str? && (v.s == "sent" || v.s == "delivered" || v.s == "read"))
    ensures r.Err? ==> r.error == {Issue("body.status", None, StatusInvalid)}
  {
    if v.Absent? then Ok(None)
    else if v.Str? && Models.ParseStatus(v.s).Some? then Ok(Models.ParseStatus(v.s))
    else Err({Issue("body.status", None, StatusInvalid)})
  }

  /** `updateMessageSchema`. */
  function UpdateMessageSchema(messageId: Value, status: Value, isObjectId: string -> bool): (r: Result<UpdateInput, set<Issue>>)
    ensures r.Ok? <==> (IsObjectId(messageId, isObjectId)
                        && (status.Absent? || (status.Str? && Models.ParseStatus(status.s).Some?)))
    ensures r.Ok? ==> r.value.messageId == messageId.s
    ensures r.Ok? && status.Absent? ==> r.value.status.None?
    ensures r.Ok? && status.Str? ==> r.value.status == Models.ParseStatus(status.s)
    ensures !status.Absent? && !(status.Str? && Models.ParseStatus(status.s).Some?) ==>
      r.Err? && Issue("body.status", None, StatusInvalid) in r.error
  {
    var m := ObjectIdField(messageId, "body.messageId", None, isObjectId);
    var s := StatusField(status);
    var issues := m + (if s.Err? then s.error else {});
    if issues == {} then Ok(UpdateInput(messageId.s, s.value)) else Err(issues)
  }

  /** Every status the server writes is accepted by the update schema under its own name. */
  lemma UpdateAcceptsEveryStatus(messageId: string, st: Models.Status, isObjectId: string -> bool)
    requires isObjectId(messageId)
    ensures UpdateMessageSchema(Str(messageId), Str(Models.StatusName(st)), isObjectId)
      == Ok(UpdateInput(messageId, Some(st)))
  {
    Models.ParseStatusName(st);
  }
}
