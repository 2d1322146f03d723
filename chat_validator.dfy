/** The second set of chat request schemas, kept beside the ObjectId-based ones. */
module ChatValidator {
  import opened Wrappers
  import opened Zod

  const ChatNameRequired := "Chat name is required"
  const ParticipantRequired := "At least one participant is required"
  /** zod's own message for a failed `.min(1)` on a string. */
  const DefaultMinOne := "String must contain at least 1 character(s)"

  datatype CreateInput = CreateInput(name: Option<string>, participants: seq<string>, isGroup: Option<bool>)
  datatype UpdateInput = UpdateInput(chatId: string, name: Option<string>)

  /** `z.string().min(1, message).optional()`. */
  function OptionalNonEmpty(v: Value, path: string, message: string): (r: Result<Option<string>, set<Issue>>)
    ensures r.Ok? <==> v.Absent? || (v.Str? && v.s != "")
    ensures r.Ok? ==> r.value == (if v.Absent? then None else Some(v.s))
    ensures v == Str("") ==> r == Err({Issue(path, None, message)})
    ensures !v.Absent? && !v.Str? ==> r == Err({Issue(path, None, ExpectedString)})
  {
    if v.Absent? then Ok(None)
    else if !v.Str? then Err({Issue(path, None, TypeMessage(None, v, ExpectedString))})
    else if v.s == "" then Err({Issue(path, None, message)})
    else Ok(Some(v.s))
  }

  /** `z.array(z.string()).min(lo, message)`. */
  function StringArray(v: Value, path: string, lo: nat, message: string): (r: set<Issue>)
    ensures r == {} <==> v.Arr? && |v.items| >= lo && forall i :: 0 <= i < |v.items| ==> v.items[i].Str?
    ensures !v.Arr? ==> r == {Issue(path, None, TypeMessage(None, v, ExpectedArray))}
    ensures v.Arr? && |v.items| < lo ==> Issue(path, None, message) in r
  {
    if !v.Arr? then {Issue(path, None, TypeMessage(None, v, ExpectedArray))}
    else (if |v.items| < lo then {Issue(path, None, message)} else {}) + StringElements(v.items, path, 0)
  }

  /** `z.boolean().optional()`. */
  function OptionalBool(v: Value, path: string): (r: Result<Option<bool>, set<Issue>>)
    ensures r.Ok? <==> v.Absent? || v.Bool?
    ensures r.Ok? ==> r.value == (if v.Absent? then None else Some(v.b))
    ensures r.Err? ==> r.error == {Issue(path, None, ExpectedBoolean)}
  {
    if v.Absent? then Ok(None)
    else if v.Bool? then Ok(Some(v.b))
    else Err({Issue(path, None, TypeMessage(None, v, ExpectedBoolean))})
  }

  function Errors<T>(r: Result<T, set<Issue>>): set<Issue> {
    if r.Err? then r.error else {}
  }

  /** `createChatSchema`: an optional non-empty name, a non-empty array of strings and an
      optional flag. */
  function CreateChatSchema(name: Value, participants: Value, isGroup: Value): (r: Result<CreateInput, set<Issue>>)
    ensures r.Ok? <==> ((name.Absent? || (name.Str? && name.s != ""))
                        && participants.Arr? && |participants.items| >= 1
                        && (forall i :: 0 <= i < |participants.items| ==> participants.items[i].Str?)
                        && (isGroup.Absent? || isGroup.Bool?))
    ensures r.Ok? ==> r.value.name == (if name.Absent? then None else Some(name.s))
    ensures r.Ok? ==> |r.value.participants| == |participants.items|
                      && forall i :: 0 <= i < |participants.items| ==> r.value.participants[i] == participants.items[i].s
    ensures r.Ok? ==> r.value.isGroup == (if isGroup.Absent? then None else Some(isGroup.b))
    ensures name == Str("") ==> r.Err? && Issue("body.name", None, ChatNameRequired) in r.error
    ensures participants == Arr([]) ==> r.Err? && Issue("body.participants", None, ParticipantRequired) in r.error
    ensures participants.Absent? ==> r.Err? && Issue("body.participants", None, Required) in r.error
  {
    var n := OptionalNonEmpty(name, "body.name", ChatNameRequired);
    var p := StringArray(participants, "body.participants", 1, ParticipantRequired);
    var g := OptionalBool(isGroup, "body.isGroup");
    var issues := Errors(n) + p + Errors(g);
    if issues == {} then Ok(CreateInput(n.value, Strings(participants.items), g.value)) else Err(issues)
  }

  /** `updateChatSchema`. */
  function UpdateChatSchema(chatId: Value, name: Value): (r: Result<UpdateInput, set<Issue>>)
    ensures r.Ok? <==> chatId.Str? && (name.Absent? || (name.Str? && name.s != ""))
    ensures r.Ok? ==> r.value == UpdateInput(chatId.s, if name.Absent? then None else Some(name.s))
    ensures chatId.Absent? ==> r.Err? && Issue("params.chatId", None, Required) in r.error
    ensures name == Str("") ==> r.Err? && Issue("body.name", None, DefaultMinOne) in r.error
  {
    var c := StringField(chatId, "params.chatId", None, []);
    var n := OptionalNonEmpty(name, "body.name", DefaultMinOne);
    var issues := c.issues + Errors(n);
    if issues == {} then Ok(UpdateInput(chatId.s, n.value)) else Err(issues)
  }
}
