/** The request schemas of the chat routes. ObjectId validity is the abstract predicate
    `isObjectId`. */
module ChatValidation {
  import opened Wrappers
  import opened Zod
  import Text

  const GroupNameRequired := "Group name is required"
  const GroupNameTooShort := "Group name must be at least 3 characters"
  const GroupNameTooLong := "Group name must not exceed 50 characters"
  const UsersRequired := "Users array is required"
  const UsersTooFew := "At least one user is required for a group chat"
  const UsersTooMany := "Group cannot have more than 50 participants"
  const UserIdsRequired := "User IDs array is required"
  const UserIdsTooFew := "At least one user ID is required"
  const UserIdsTooMany := "Cannot add more than 20 participants at once"

  datatype GroupInput = GroupInput(name: string, users: seq<string>)
  datatype ParticipantsInput = ParticipantsInput(id: string, userIds: seq<string>)

  /** `createChatSchema`. */
  function CreateChatSchema(userId: Value, isObjectId: string -> bool): (r: Result<string, set<Issue>>)
    ensures r.Ok? <==> IsObjectId(userId, isObjectId)
    ensures r.Ok? ==> r.value == userId.s
    ensures r.Err? ==> r.error == ObjectIdField(userId, "body.userId", None, isObjectId)
  {
    ObjectIdParam(userId, "body.userId", isObjectId)
  }

  /** `createGroupChatSchema`: the name's length is checked before it is trimmed. */
  function CreateGroupChatSchema(name: Value, users: Value, isObjectId: string -> bool): (r: Result<GroupInput, set<Issue>>)
    ensures r.Ok? <==> (name.Str? && 3 <= |name.s| <= 50
                        && users.Arr? && 1 <= |users.items| <= 50
                        && forall i :: 0 <= i < |users.items| ==> IsObjectId(users.items[i], isObjectId))
    ensures r.Ok? ==> r.value.name == Text.Trim(name.s)
    ensures r.Ok? ==> |r.value.users| == |users.items|
                      && forall i :: 0 <= i < |users.items| ==> r.value.users[i] == users.items[i].s
    ensures !name.Str? ==> r.Err? && Issue("body.name", None, GroupNameRequired) in r.error
    ensures name.Str? && |name.s| < 3 ==> r.Err? && Issue("body.name", None, GroupNameTooShort) in r.error
    ensures name.Str? && |name.s| > 50 ==> r.Err? && Issue("body.name", None, GroupNameTooLong) in r.error
    ensures !users.Arr? ==> r.Err? && Issue("body.users", None, UsersRequired) in r.error
    ensures users == Arr([]) ==> r.Err? && Issue("body.users", None, UsersTooFew) in r.error
    ensures users.Arr? && |users.items| > 50 ==> r.Err? && Issue("body.users", None, UsersTooMany) in r.error
  {
    var n := StringField(name, "body.name", Some(GroupNameRequired),
                         [MinLength(3, GroupNameTooShort), MaxLength(50, GroupNameTooLong), Trimmed]);
    assert name.Str? ==> n == Checked(TooShort(name.s, 3, "body.name", GroupNameTooShort)
                                      + TooLong(name.s, 50, "body.name", GroupNameTooLong),
                                      Text.Trim(name.s)) by {
      if name.Str? { RunMinMaxTrim(name.s, 3, GroupNameTooShort, 50, GroupNameTooLong, "body.name"); }
    }
    var u := ObjectIdArray(users, "body.users", Some(UsersRequired), 1, UsersTooFew, 50, UsersTooMany, isObjectId);
    var issues := n.issues + u;
    if issues == {} then Ok(GroupInput(n.value, Strings(users.items))) else Err(issues)
  }

  /** As written, a group name of three spaces is accepted and becomes the empty name. */
  lemma BlankGroupNameAccepted(user: string, isObjectId: string -> bool)
    requires isObjectId(user)
    ensures CreateGroupChatSchema(Str("   "), Arr([Str(user)]), isObjectId) == Ok(GroupInput("", [user]))
  {
    Text.TrimSpaces("   ");
    var r := CreateGroupChatSchema(Str("   "), Arr([Str(user)]), isObjectId);
    assert r.Ok?;
    assert r.value.users == [user];
  }

  /** The group-name field with the trim first, as its messages describe it. */
  function GroupNameTrimFirst(name: Value): (r: Result<string, set<Issue>>)
    ensures r.Ok? <==> name.Str? && 3 <= |Text.Trim(name.s)| <= 50
    ensures r.Ok? ==> r.value == Text.Trim(name.s) && 3 <= |r.value| <= 50
    ensures name.Str? && |Text.Trim(name.s)| < 3 ==> r.Err? && Issue("body.name", None, GroupNameTooShort) in r.error
  {
    var n := StringField(name, "body.name", Some(GroupNameRequired),
                         [Trimmed, MinLength(3, GroupNameTooShort), MaxLength(50, GroupNameTooLong)]);
    assert name.Str? ==> n == Checked(TooShort(Text.Trim(name.s), 3, "body.name", GroupNameTooShort)
                                      + TooLong(Text.Trim(name.s), 50, "body.name", GroupNameTooLong),
                                      Text.Trim(name.s)) by {
      if name.Str? { RunTrimMinMax(name.s, 3, GroupNameTooShort, 50, GroupNameTooLong, "body.name"); }
    }
    if n.issues == {} then Ok(n.value) else Err(n.issues)
  }

  /** With the trim first, white space alone is refused as a group name. */
  lemma BlankGroupNameRefused(name: string)
    requires forall i :: 0 <= i < |name| ==> name[i] == ' '
    ensures GroupNameTrimFirst(Str(name)).Err?
  {
    Text.TrimSpaces(name);
  }

  /** `getChatByIdSchema`. */
  function GetChatByIdSchema(id: Value, isObjectId: string -> bool): (r: Result<string, set<Issue>>)
    ensures r.Ok? <==> IsObjectId(id, isObjectId)
    ensures r.Ok? ==> r.value == id.s
    ensures r.Err? ==> r.error == ObjectIdField(id, "params.id", None, isObjectId)
  {
    ObjectIdParam(id, "params.id", isObjectId)
  }

  /** `addParticipantsSchema` and `deleteParticipantsSchema`, which are the same schema. */
  function ParticipantsSchema(id: Value, userIds: Value, isObjectId: string -> bool): (r: Result<ParticipantsInput, set<Issue>>)
    ensures r.Ok? <==> (IsObjectId(id, isObjectId)
                        && userIds.Arr? && 1 <= |userIds.items| <= 20
                        && forall i :: 0 <= i < |userIds.items| ==> IsObjectId(userIds.items[i], isObjectId))
    ensures r.Ok? ==> r.value.id == id.s && |r.value.userIds| == |userIds.items|
                      && forall i :: 0 <= i < |userIds.items| ==> r.value.userIds[i] == userIds.items[i].s
    ensures !userIds.Arr? ==> r.Err? && Issue("body.userIds", None, UserIdsRequired) in r.error
    ensures userIds == Arr([]) ==> r.Err? && Issue("body.userIds", None, UserIdsTooFew) in r.error
    ensures userIds.Arr? && |userIds.items| > 20 ==> r.Err? && Issue("body.userIds", None, UserIdsTooMany) in r.error
    ensures id.Str? && !isObjectId(id.s) ==> r.Err? && Issue("params.id", None, InvalidObjectId) in r.error
  {
    var p := ObjectIdField(id, "params.id", None, isObjectId);
    var u := ObjectIdArray(userIds, "body.userIds", Some(UserIdsRequired), 1, UserIdsTooFew, 20, UserIdsTooMany, isObjectId);
    var issues := p + u;
    if issues == {} then Ok(ParticipantsInput(id.s, Strings(userIds.items))) else Err(issues)
  }
}
