/** The second set of message request schemas, kept beside the ObjectId-based ones. */
module MessageValidator {
  import opened Wrappers
  import opened Zod

  const ChatIdRequired := "Chat ID is required"
  const ContentRequired := "Message content is required"

  datatype SendInput = SendInput(chatId: string, content: string)
  datatype PageQuery = PageQuery(chatId: string, page: Option<string>, limit: Option<string>)

  /** `sendMessageSchema`: both fields non-empty strings, taken as they are. */
  function SendMessageSchema(chatId: Value, content: Value): (r: Result<SendInput, set<Issue>>)
    ensures r.Ok? <==> chatId.Str? && chatId.s != "" && content.Str? && content.s != ""
    ensures r.Ok? ==> r.value == SendInput(chatId.s, content.s)
    ensures chatId == Str("") ==> r.Err? && Issue("body.chatId", None, ChatIdRequired) in r.error
    ensures content == Str("") ==> r.Err? && Issue("body.content", None, ContentRequired) in r.error
    ensures chatId.Absent? ==> r.Err? && Issue("body.chatId", None, Required) in r.error
    ensures content.Absent? ==> r.Err? && Issue("body.content", None, Required) in r.error
  {
    var c := StringField(chatId, "body.chatId", None, [MinLength(1, ChatIdRequired)]);
    var m := StringField(content, "body.content", None, [MinLength(1, ContentRequired)]);
    assert chatId.Str? ==> c == Checked(TooShort(chatId.s, 1, "body.chatId", ChatIdRequired), chatId.s) by {
      if chatId.Str? { RunMin(chatId.s, 1, ChatIdRequired, "body.chatId"); }
    }
    assert content.Str? ==> m == Checked(TooShort(content.s, 1, "body.content", ContentRequired), content.s) by {
      if content.Str? { RunMin(content.s, 1, ContentRequired, "body.content"); }
    }
    var issues := c.issues + m.issues;
    if issues == {} then Ok(SendInput(c.value, m.value)) else Err(issues)
  }

  /** `z.string().optional()`. */
  function OptionalString(v: Value, path: string): (r: Result<Option<string>, set<Issue>>)
    ensures r.Ok? <==> v.Absent? || v.Str?
    ensures r.Ok? ==> r.value == (if v.Absent? then None else Some(v.s))
    ensures r.Err? ==> r.error == {Issue(path, None, ExpectedString)}
  {
    if v.Absent? then Ok(None)
    else if v.Str? then Ok(Some(v.s))
    else Err({Issue(path, None, TypeMessage(None, v, ExpectedString))})
  }

  /** `getMessagesSchema`: a string chat id and optional string paging parameters. */
  function GetMessagesSchema(chatId: Value, page: Value, limit: Value): (r: Result<PageQuery, set<Issue>>)
    ensures r.Ok? <==> chatId.Str? && (page.Absent? || page.Str?) && (limit.Absent? || limit.Str?)
    ensures r.Ok? ==> r.value == PageQuery(chatId.s, if page.Absent? then None else Some(page.s),
                                           if limit.Absent? then None else Some(limit.s))
    ensures chatId.Absent? ==> r.Err? && Issue("params.chatId", None, Required) in r.error
  {
    var c := StringField(chatId, "params.chatId", None, []);
    var p := OptionalString(page, "query.page");
    var l := OptionalString(limit, "query.limit");
    var issues := c.issues + (if p.Err? then p.error else {}) + (if l.Err? then l.error else {});
    if issues == {} then Ok(PageQuery(chatId.s, p.value, l.value)) else Err(issues)
  }
}
