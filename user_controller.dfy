/** The user endpoints: everyone but the caller, projected to `userName` and `avatar`; and
    one user by id. */
module UserController {
  import opened Wrappers
  import opened Models
  import Protect
  import Store
  import Lists

  /** `User.find({ _id: { $ne: me } })`: every user but `me`, in stored order, which is the
      order-keeping filter on the id. */
  function OtherUsers(us: seq<User>, me: string): (r: seq<User>)
    ensures r == Lists.Filter(us, (u: User) => u.id != me)
    ensures forall u :: u in r <==> u in us && u.id != me
    ensures |r| <= |us|
  {
    if us == [] then []
    else (if us[0].id != me then [us[0]] else []) + OtherUsers(us[1..], me)
  }

  /** The projection `{ userName: 1, _id: 0, avatar: 1 }`: no id, no e-mail, no password. */
  datatype UserListItem = UserListItem(userName: Option<string>, avatar: Option<string>)

  function Project(us: seq<User>): (r: seq<UserListItem>)
    ensures |r| == |us|
    ensures forall i :: 0 <= i < |us| ==> r[i] == UserListItem(us[i].userName, us[i].avatar)
  {
    if us == [] then [] else [UserListItem(us[0].userName, us[0].avatar)] + Project(us[1..])
  }

  datatype UsersReply = Unauthorized(status: nat, message: string) | UserList(status: nat, items: seq<UserListItem>)

  /** `getAllUsers`: without a caller id, 401; otherwise one item per other user, in order. */
  function GetAllUsers(us: seq<User>, current: Option<string>): (r: UsersReply)
    ensures r.Unauthorized? <==> !Protect.Truthy(current)
    ensures r.Unauthorized? ==> r == Unauthorized(401, "Unauthorized")
    ensures r.UserList? ==> r.status == 200 && r.items == Project(OtherUsers(us, current.value))
    ensures r.UserList? ==> |r.items| == |OtherUsers(us, current.value)|
  {
    if !Protect.Truthy(current) then Unauthorized(401, "Unauthorized")
    else UserList(200, Project(OtherUsers(us, current.value)))
  }

  /** The caller is never listed, and everyone else is. */
  lemma OtherUsersExact(us: seq<User>, me: string, u: User)
    requires u in us
    ensures u in OtherUsers(us, me) <==> u.id != me
  {
  }

  /** A user document as `findById` returns it: every path but `password`, which has
      `select: false`. The refresh token and the timestamps are included. */
  datatype PublicUser = PublicUser(id: string, name: Option<string>, userName: Option<string>,
                                   email: string, avatar: Option<string>, refreshToken: Option<string>,
                                   createdAt: nat, updatedAt: nat)

  /** The fields of a document that the default selection returns. */
  function Selected(u: User): (p: PublicUser)
    ensures p.id == u.id && p.name == u.name && p.userName == u.userName && p.email == u.email
    ensures p.avatar == u.avatar && p.refreshToken == u.refreshToken
    ensures p.createdAt == u.createdAt && p.updatedAt == u.updatedAt
  {
    PublicUser(u.id, u.name, u.userName, u.email, u.avatar, u.refreshToken, u.createdAt, u.updatedAt)
  }

  /** `User.findById(id)`: the first document with the id, without its password. */
  function FindPublicUser(us: seq<User>, id: string): (r: Option<PublicUser>)
    ensures r.None? <==> forall u :: u in us ==> u.id != id
    ensures r.Some? ==> Store.FindUser(us, id).Some? && r.value == Selected(Store.FindUser(us, id).value)
    ensures r.Some? ==> exists u :: u in us && u.id == id && r.value == Selected(u)
  {
    if us == [] then None
    else if us[0].id == id then Some(Selected(us[0]))
    else
      assert forall u :: u in us ==> u == us[0] || u in us[1..];
      assert Store.UserIds(us) == [us[0].id] + Store.UserIds(us[1..]);
      FindPublicUser(us[1..], id)
  }

  /** `getUser`: 200 whether or not the user exists (`null` when not). */
  function GetUser(us: seq<User>, id: string): (r: (nat, Option<PublicUser>))
    ensures r.0 == 200
    ensures r.1 == FindPublicUser(us, id)
  {
    (200, FindPublicUser(us, id))
  }

  /** Any caller who knows a user's id receives that user's stored refresh token. */
  lemma GetUserExposesRefreshToken(us: seq<User>, id: string)
    requires id in Store.UserIds(us)
    ensures GetUser(us, id).1.Some?
    ensures GetUser(us, id).1.value.refreshToken == Store.FindUser(us, id).value.refreshToken
  {
    assert Store.FindUser(us, id).Some?;
  }
}
